/**
 * `DosboxConfiguration`: a dict from section names to option dicts whose
 * `autoexec` entry holds the autoexec command list. The constructor folds the
 * configuration files, the `-c` commands, the tweak sections and the launch
 * lines into it; every operation is proved against its value-level
 * counterpart in `Merge`.
 */
module Configuration {
  import opened Wrappers
  import opened Ini
  import opened Merge
  import AutoexecCapture
  import PosixPath

  class DosboxConfiguration {
    /** The dict's keys in insertion order; `autoexec` is the first. */
    var names: seq<string>
    /** The option dict of every key but `autoexec`. */
    var sections: map<string, Options>
    /** `raw_autoexec`, the list stored under `autoexec`. */
    var autoexec: seq<string>
    /** The encoding the configuration is to be written in. */
    var encoding: string

    /** The object's state as a value. */
    function State(): Conf
      reads this
    {
      Conf(names, sections, autoexec, encoding)
    }

    ghost predicate Valid()
      reads this
    {
      WellFormed(State())
    }

    /**
     * Builds the configuration: the file layers (the files given, else the
     * default one), then the `-c` commands, then the tweak sections, then the
     * launch lines when a program is given.
     */
    constructor (inv: Invocation, host: Host)
      requires Meaningful(inv)
      ensures Valid()
      ensures State() == Resolve(inv, host)
    {
      names := [AUTOEXEC];
      sections := map[];
      autoexec := [];
      encoding := UTF8;
      new;
      var paths := ConfPaths(inv, host);
      ghost var texts := Texts(inv, host);
      for i := 0 to |paths|
        invariant Valid()
        invariant State() == FileLayers(Initial(), texts[..i], inv.noautoexec)
      {
        var text := host.readConf(host.toPosix(paths[i]));
        assert text == texts[i];
        assert texts[..i + 1][..i] == texts[..i];
        AddConfFile(text, inv.noautoexec);
      }
      assert texts[..|paths|] == texts;
      ghost var files := State();
      autoexec := autoexec + inv.commands;
      WellFormedAnyScript(files, autoexec, encoding);
      ImportIniSections(inv.tweak);
      ghost var tweaked := State();
      if Launches(inv.exe) {
        AppendLaunchLines(host.toPosix(inv.exe.value), inv.exitAfterExe);
      }
      ResolveSteps(inv, host, files, tweaked, State());
    }

    /**
     * One configuration file: its sections imported, its encoding adopted
     * when it is not UTF-8, and its autoexec lines appended when it has an
     * `autoexec` section and `-noautoexec` is not given.
     */
    method AddConfFile(text: ConfText, noautoexec: bool)
      requires Valid()
      modifies this
      ensures Valid()
      ensures State() == AddFile(old(State()), text, noautoexec)
    {
      ImportIniSections(text.layer);
      ghost var imported := State();
      if text.encoding != UTF8 {
        encoding := text.encoding;
      }
      var captured := AutoexecCapture.CaptureAutoexec(text.lines);
      if !noautoexec && LayerHas(text.layer, AUTOEXEC) {
        autoexec := autoexec + captured;
      }
      WellFormedAnyScript(imported, autoexec, encoding);
    }

    /** The launch lines for the program at `posixPath`, appended one at a time. */
    method AppendLaunchLines(posixPath: string, exitAfterExe: bool)
      requires Valid()
      modifies this
      ensures Valid()
      ensures State() == old(State()).(autoexec := old(autoexec) + LaunchLines(posixPath, exitAfterExe))
    {
      ghost var before := State();
      var (dir, file) := PosixPath.Split(posixPath);
      autoexec := autoexec + ["mount C " + (if dir == "" then "." else dir)];
      autoexec := autoexec + ["C:"];
      if IsBatchFile(file) {
        autoexec := autoexec + ["call " + file];
      } else {
        autoexec := autoexec + [file];
      }
      if exitAfterExe {
        autoexec := autoexec + ["exit"];
      }
      LaunchLinesAppended(before.autoexec, posixPath, exitAfterExe, autoexec);
      WellFormedAnyScript(before, autoexec, encoding);
    }

    /** `has_section(name)`: a key of the dict, which `autoexec` always is. */
    function HasSection(name: string): (r: bool)
      reads this
      requires Valid()
      ensures r <==> name == AUTOEXEC || name in sections
    {
      name in names
    }

    /** `sections()`: the keys in insertion order, `autoexec` first, each once. */
    function Sections(): (r: seq<string>)
      reads this
      requires Valid()
      ensures |r| > 0 && r[0] == AUTOEXEC
      ensures forall i, j :: 0 <= i < j < |r| ==> r[i] != r[j]
      ensures forall n :: n in r <==> HasSection(n)
    {
      names
    }

    /**
     * `set(section, option, value)`: fails when the section is absent or is
     * the `autoexec` list; otherwise sets that one option.
     */
    method Set(section: string, option: string, value: Value) returns (outcome: Result<(), SetError>)
      requires Valid()
      modifies this
      ensures Valid()
      ensures var r := SetOption(old(State()), section, option, value);
        && (r.Failure? ==> outcome == Failure(r.error) && State() == old(State()))
        && (r.Success? ==> outcome == Success(()) && State() == r.value)
    {
      if section !in names {
        return Failure(MissingSection);
      }
      if section == AUTOEXEC {
        return Failure(AutoexecIsNotASection);
      }
      sections := sections[section := Put(sections[section], option, value)];
      return Success(());
    }

    /**
     * `__import_ini_sections__(config)`: skips `autoexec`, adds a section the
     * configuration lacks whole, and otherwise sets its options one by one.
     */
    method ImportIniSections(layer: Layer)
      requires Valid()
      modifies this
      ensures Valid()
      ensures State() == ImportSections(old(State()), layer)
    {
      ghost var start := State();
      for i := 0 to |layer|
        invariant Valid()
        invariant State() == ImportSections(start, layer[..i])
      {
        var (name, opts) := layer[i];
        assert layer[..i + 1][..i] == layer[..i];
        ImportSectionMeaning(State(), name, opts);
        if name == AUTOEXEC {
          continue;
        }
        if !HasSection(name) {
          names := names + [name];
          sections := sections[name := opts];
          continue;
        }
        SetAll(name, opts);
      }
      assert layer[..|layer|] == layer;
    }

    /** The inner loop of `__import_ini_sections__`: `set` each option of `opts` on the existing section `name`, in order. */
    method SetAll(name: string, opts: Options)
      requires Valid() && name in sections
      modifies this
      ensures Valid()
      ensures State() == old(State()).(sections := old(sections)[name := PutAll(old(sections)[name], opts)])
    {
      ghost var before, o := State(), sections[name];
      for j := 0 to |opts|
        invariant Valid()
        invariant names == before.names && autoexec == before.autoexec && encoding == before.encoding
        invariant sections == before.sections[name := PutAll(o, opts[..j])]
      {
        var (option, value) := opts[j];
        SetOptionExisting(State(), name, option, value);
        var outcome := Set(name, option, value);
        PutAllPrefixStep(o, opts, j);
        UpdateTwice(before.sections, name, PutAll(o, opts[..j]), Put(PutAll(o, opts[..j]), option, value));
      }
      assert opts[..|opts|] == opts;
    }
  }

  lemma UpdateTwice(m: map<string, Options>, k: string, a: Options, b: Options)
    ensures m[k := a][k := b] == m[k := b]
  {
  }
}
