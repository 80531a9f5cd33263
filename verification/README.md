# Boxtron configuration generator, modelled in Dafny

Boxtron runs Windows DOS games under a native Linux DOSBox. Its configuration
generator (`confgen.py`) reads the DOSBox command line a Windows game would
have used and turns it into configuration files for the native DOSBox. This
project models that generator's core and proves what it promises:

* **`DosboxConfiguration`** (`configuration.dfy`, a class) is built in layers:
  - the configuration files named with `-conf`, or else `dosbox.conf` if it exists;
  - then the `-c` commands;
  - then the per-game tweak sections;
  - then the lines that launch the program.

  Its methods are proved against value-level functions in `merge.dfy`. The
  construction's guarantees are proved about those functions in
  `merge_properties.dfy`: option precedence, the order of the autoexec script,
  and the resulting encoding.
* **Autoexec capture** (`capture.dfy`) is the second reading pass of
  `DosboxConfigParser.read`. It keeps every line after the first
  `[autoexec]` header, right-stripped.
* **`to_linux_autoexec`** is modelled in two files:
  - `autoexec_syntax.dfy` holds its three regular expressions, written as
    grammars with recognizers, and proves each recognizer exact;
  - `autoexec_rewrite.dfy` holds the per-line rewriting.

  `launch_rewrite.dfy` shows what the launch lines become when they pass
  through the rewriter.
* **Configuration file names** (`conf_name.dfy`) cover the salted unique name
  and the cleanup of older names.
* **Section writers** (`conf_writers.dfy`) cover the filtered `[render]`
  section of the user file, and the `[render]`, `[sblaster]` and `[dos]`
  sections of the generated file.

`wrappers.dfy`, `text.dfy`, `ini.dfy` and `posix_path.dfy` hold the values
the core works on:
* `Option` and `Result`;
* string helpers (Python whitespace; ASCII-only case);
* insertion-ordered option dictionaries and parsed sources;
* `os.path.split`.

The outside world becomes parameters:
* `Host` stands for the path converter `to_posix_path`, the file-existence
  test, and reading and parsing a configuration file.
* `Env` stands for the path converter and the cue-sheet scanner.
* The SHA-1 digest is any function yielding forty lower-case hex digits.

## Model

| member | source | states |
|---|---|---|
| Ini.Lookup | confgen.py:452-454 | `dict.get` on a section: found exactly when the section defines the option, and then it is one of the section's entries. |
| Ini.Put | confgen.py:250 | Definition: `section[option] = value` on an insertion-ordered dict. |
| Ini.PutAll | confgen.py:231-232 | Definition: the options of a source set one by one. |
| Ini.PutMeaning | confgen.py:250 | Setting an option makes it map to the new value and leaves every other option's value alone. An existing option keeps its place; a new one goes last. |
| Ini.PutAllMeaning | confgen.py:231-232 | After the options of a source are set one by one, an option the source defines has the source's value (its last entry). Every other option keeps its old value. |
| AutoexecCapture.Captured | confgen.py:150-157 | Definition: the right-stripped lines after the first `[autoexec]` header, none without one. |
| AutoexecCapture.FirstHeader | confgen.py:156-157 | The index of the first line whose stripped text starts with `[autoexec]`. It is `|lines|` exactly when there is none. |
| AutoexecCapture.CaptureAutoexec | confgen.py:150-157 | The scanning loop with its in-section flag returns exactly the right-stripped lines after the first header. |
| AutoexecCapture.CapturedAfterFirstHeader | confgen.py:150-157 | The header is not captured. Every later line is captured in order, including later section headers. |
| AutoexecCapture.CapturedWithoutHeader | confgen.py:150-157 | A file with no `[autoexec]` header contributes no lines. |
| AutoexecCapture.CapturedAppend | confgen.py:150-157 | Once a header has been seen, every further line is captured, across any split of the file. |
| AutoexecCapture.CapturedShape | confgen.py:154 | Fewer lines come out than go in (the header is dropped). No captured line ends in whitespace. |
| PosixPath.Split | confgen.py:207 | Definition: `os.path.split` on a POSIX path. |
| PosixPath.SplitMeaning | confgen.py:207 | `os.path.split`: the path is the head, a run of slashes, and a slash-free tail that follows the last slash (or is the whole path). The head is empty exactly when there is no slash. The head keeps trailing slashes only when it is all slashes. |
| PosixPath.SplitUnique | confgen.py:207 | That description fixes the split: any head and tail meeting it are the ones `Split` returns. |
| Merge.Initial | confgen.py:185-188 | The starting state is well formed. |
| Merge.ImportSection | confgen.py:225-232 | Definition: one section of a source folded into the configuration (skip `autoexec`, add a missing section whole, else set its options in order). |
| Merge.ImportSections | confgen.py:224-232 | Definition: every section of a source, in the order the source lists them. |
| Merge.SetOption | confgen.py:242-250 | Definition: `set` on a state value, with its two errors. |
| Merge.AddFile | confgen.py:191-197 | Definition: one configuration file folded in (sections, encoding, autoexec lines). |
| Merge.FileLayers | confgen.py:190-197 | Definition: the configuration files folded in, in order. |
| Merge.Resolve | confgen.py:176-215 | Definition: the whole construction as one function of the arguments and the host. |
| Merge.ConfPaths | confgen.py:217-222 | The `-conf` files when given. Otherwise the converted `dosbox.conf` path alone, exactly when it is non-empty and a file, and no path at all when it is not. |
| Merge.ImportSectionMeaning | confgen.py:224-232 | `autoexec` is skipped. A missing section is added whole and listed last. In an existing section, the source's options overwrite and the others stay. No other section changes, and the state stays well formed. |
| Merge.ImportSectionsMeaning | confgen.py:224-232 | Importing a whole source only appends section names and leaves sections it does not name untouched. A section is present when it was before or the source names it. Every option the source defines takes the source's value; the rest keep theirs. |
| Merge.SetOptionMeaning | confgen.py:242-250 | `set` fails with `MissingSection` exactly when the section is absent, and fails on `autoexec`. Otherwise exactly one option changes, to the given value, and nothing else. |
| Merge.LaunchLines | confgen.py:205-215 | Definition: the lines appended for a program. |
| Merge.LaunchLinesMeaning | confgen.py:205-215 | For the directory and file name `os.path.split` gives: the first line mounts the directory as `C` (`.` when there is none) and the second is `C:`. The third is `call FILE` exactly when the name ends in `.bat` in any ASCII case, and the bare name otherwise. A fourth line `exit` is there exactly when it is asked for; otherwise there are three lines. |
| Merge.FileLayersWellFormed | confgen.py:190-197 | Folding file layers keeps the configuration well formed. |
| Merge.ResolveWellFormed | confgen.py:176-215 | The finished configuration has `autoexec` as its first key, distinct keys, and no option dictionary under `autoexec`. |
| MergeProperties.FileLayersAutoexec | confgen.py:190-197 | The file layers append their captured autoexec lines in file order and never drop or reorder a line. |
| MergeProperties.SuppressedFileAutoexec | confgen.py:196-197 | With `-noautoexec` no file contributes an autoexec line. |
| MergeProperties.ResolvedAutoexec | confgen.py:176-215 | The final script is the files' autoexec lines, then the `-c` commands, then the launch lines. `-noautoexec` removes only the files' lines. |
| MergeProperties.FileLayersEncoding | confgen.py:194-195 | The encoding after the file layers is the last one that is not `utf-8`, or the previous encoding when every file is `utf-8`. |
| MergeProperties.ResolvedEncoding | confgen.py:188-195 | The configuration's encoding is `utf-8` exactly when every file was read as `utf-8`. Otherwise it is that of the last file that was not. |
| MergeProperties.FilesLookupMeaning | confgen.py:190-193 | Across the files, the last file defining an option is found. Nothing is found when no file defines it. |
| MergeProperties.FileLayersValue | confgen.py:190-193 | After the file layers, an option's value is the one given by the last file that defines it. |
| MergeProperties.FileLayersPresence | confgen.py:190-193 | After the file layers, a section is present exactly when it was before or some file names it. |
| MergeProperties.ResolvedValues | confgen.py:190-203 | Tweak sections win over every file. Among the files the last one wins. An option nobody defines is absent, and a section is present exactly when some layer names it. |
| Configuration.DosboxConfiguration.constructor | confgen.py:176-215 | The constructed object is well formed and its state is exactly `Resolve` of the arguments and the host. |
| Configuration.DosboxConfiguration.AddConfFile | confgen.py:192-197 | Reading one file leaves the state `AddFile` of the old one: its sections imported, its encoding adopted, its autoexec lines appended unless suppressed. The state stays well formed. |
| Configuration.DosboxConfiguration.AppendLaunchLines | confgen.py:206-215 | Appending the launch lines one at a time adds exactly `LaunchLines` to the autoexec list. Nothing else changes. |
| Configuration.DosboxConfiguration.HasSection | confgen.py:238-240 | `has_section` holds exactly for `autoexec` and the sections with options. |
| Configuration.DosboxConfiguration.Sections | confgen.py:234-236 | `sections()` lists `autoexec` first, each key once, and exactly the keys `has_section` accepts. |
| Configuration.DosboxConfiguration.Set | confgen.py:242-250 | `set` fails with `MissingSection` for a missing section and with `AutoexecIsNotASection` on `autoexec`, changing nothing in either case. Otherwise the new state is `SetOption` of the old one. |
| Configuration.DosboxConfiguration.ImportIniSections | confgen.py:224-232 | The loop over a source's sections leaves the state `ImportSections` of the old one. |
| Configuration.DosboxConfiguration.SetAll | confgen.py:231-232 | Setting a section's options one by one leaves that section as the old options with the new ones put in order. Nothing else changes. |
| AutoexecSyntax.MatchQuoted | confgen.py:311-317 | Definition: a recognizer for `mount_cmd_1` anchored at the start of the line. |
| AutoexecSyntax.MatchUnquoted | confgen.py:312-317 | Definition: a recognizer for `mount_cmd_2`. |
| AutoexecSyntax.MatchDrive | confgen.py:315-327 | Definition: a recognizer for `change_drv`. |
| AutoexecSyntax.QuotedExact | confgen.py:311-317 | `mount_cmd_1` matches a line and yields a record exactly when the record is well formed and spells the line (round trip, both directions). |
| AutoexecSyntax.UnquotedExact | confgen.py:312-317 | The same for `mount_cmd_2`: the path is the longest blank-free run. |
| AutoexecSyntax.DriveExact | confgen.py:315 | The same for `change_drv`, including the one final newline `$` allows. |
| AutoexecRewrite.ConvertCueFile | confgen.py:299-306 | The path is kept, or replaced by `boxtron.cue` exactly when it is a cue sheet whose paths do not resolve. |
| AutoexecRewrite.MountLine | confgen.py:319-325 | Definition: the rewritten mount line. |
| AutoexecRewrite.ConvertLine | confgen.py:316-332 | Definition: one line rewritten: a mount, else a drive change, else the line itself. |
| AutoexecRewrite.ToLinuxAutoexec | confgen.py:309-332 | One output line per input line, in order, each the rewriting of its input line. |
| AutoexecRewrite.QuotedMountRewrite | confgen.py:317-325 | A quoted mount becomes `cmd D "path"rest` with the command lower-cased, the drive upper-cased and the path converted. |
| AutoexecRewrite.UnquotedMountRewrite | confgen.py:317-325 | The same for an unquoted mount whose path does not start with a quote. |
| AutoexecRewrite.DriveChangeRewrite | confgen.py:327-331 | Every spelling of a drive change becomes the upper-case drive and a colon. |
| AutoexecRewrite.OtherLinesPassThrough | confgen.py:332 | A line of none of the three shapes is kept unchanged. |
| AutoexecRewrite.MountLineShape | confgen.py:325 | A rewritten mount line is itself a well-formed quoted mount in canonical form. |
| AutoexecRewrite.ConvertLineIdempotent | confgen.py:309-332 | Rewriting twice equals rewriting once, when the converted paths are stable. |
| AutoexecRewrite.QuotedMountIgnoresCase | confgen.py:313-320 | Quoted mount lines differing only in the case of the command or the drive letter are rewritten alike. |
| AutoexecRewrite.UnquotedMountIgnoresCase | confgen.py:314-320 | The same for unquoted mount lines, including those whose path starts with a quote: whichever pattern takes one spelling takes the other. |
| LaunchRewrite.LaunchMountRewrite | confgen.py:208 | `mount C DIR` becomes a quoted mount of DIR's first word, converted; blanks before that word are dropped. Text after a blank that follows the word stays outside the quotes up to the first newline; from the newline on it is lost. |
| LaunchRewrite.PlainWordKept | confgen.py:212-215 | A program or `exit` line with no blank and no colon is kept as it is. |
| LaunchRewrite.CallKept | confgen.py:210-211 | `call FILE` is kept as it is. |
| LaunchRewrite.LaunchLinesRewritten | confgen.py:396-400 | The full list of launch lines as they reach the user file: the mount as in `LaunchMountRewrite`, then `C:`, the program line and `exit` unchanged. |
| ConfName.JoinAppend | confgen.py:269 | Joining arguments distributes over concatenation of the argument lists. |
| ConfName.UniqConfNameSalted | confgen.py:267-271 | The name is `PFX_APPID_UID.conf`, `|PFX|+|APPID|+13` long, where UID is six lower-case hex digits: the head of the digest of app id + joined args + salt. |
| ConfName.UniqConfName | confgen.py:262-264 | The current name uses prefix `boxtron` and salt `v2`. |
| ConfName.NameSeesOnlyJoin | confgen.py:269 | The name depends on the arguments only through their concatenation. |
| ConfName.SplitArgumentSameName | confgen.py:269 | Splitting one argument in two gives the same name. |
| ConfName.CleanupNames | confgen.py:255-257 | Definition: the four names the cleanup removes when present. |
| ConfName.CleanupOldConfFiles | confgen.py:253-260 | The loop removes exactly the listed names that are present. |
| ConfName.CleanupKeepsCurrent | confgen.py:253-260 | The current user file and the generated file survive the cleanup, and they are two different files. |
| ConfWriters.RenderOptionLines | confgen.py:379-394 | Definition: the loop over the `[render]` options. |
| ConfWriters.UserConfLines | confgen.py:366-400 | Definition: the lines of the user file. |
| ConfWriters.RenderOptionLinesMeaning | confgen.py:379-394 | Every `[render]` option but `frameskip` is written and every line written is one of them. Without `frameskip`, one line per option. |
| ConfWriters.NoLiveOverride | confgen.py:379-394 | No uncommented line sets `scaler`, `aspect` or `frameskip`, for option names without `=`. |
| ConfWriters.UserConfShape | confgen.py:374-400 | For a well-formed configuration, the user file is the comment and `[sdl]` lines, then the render help, the filtered `[render]` options and a blank line exactly when that section exists, then `[autoexec]` and the rewritten autoexec lines. |
| ConfWriters.SectionGet | confgen.py:451-455 | Definition: `conf[section].get(option, default)` behind `conf and conf.has_section(section)`. |
| ConfWriters.ResolvedSectionGet | confgen.py:412-414 | A value read from a constructed configuration is the one read off the layers directly (`LayeredGet`), or the default. |
| ConfWriters.LayeredGetMeaning | confgen.py:190-203 | Read off the layers, the tweak's value wins; else the last file defining the option gives it; a value no layer gives reads as the default. |
| MergeProperties.ResolvedOptionValue | confgen.py:190-203 | Every option of the constructed configuration holds the tweak's value, else the last defining file's, else none. |
| ConfWriters.RenderSectionLines | confgen.py:410-417 | Definition: `write_render_section`, the `[render]` section with the configuration's `force_aspect` and the chosen scaler. |
| ConfWriters.RenderResolved | confgen.py:410-417 | For a constructed configuration, `[render]` holds the aspect the layers force (`true` when none does) and the chosen scaler. |
| ConfWriters.SblasterSectionLines | confgen.py:429-436 | Definition: `write_sblaster_section`. `[sblaster]` is seven lines: `sbtype=sb16`, `sbbase=220`, the IRQ read from the configuration (default 7), `dma=1`, `hdma=5`, and a blank line. |
| ConfWriters.SblasterResolved | confgen.py:429-436 | For a constructed configuration, every fixed line as above and the IRQ the layers force (7 when none does). |
| ConfWriters.DosSectionLines | confgen.py:450-456 | Definition: `write_dos_section`, the `[dos]` section when the configuration has one, else nothing. |
| ConfWriters.DosResolved | confgen.py:450-456 | For a constructed configuration, `[dos]` is written exactly when some file or the tweak names that section. Its lines are `xms`, `ems` and `umb` in that order, each as the layers give it (`true` when none does). |
| ConfWriters.NoConfDefaults | confgen.py:410-456 | Without a configuration: aspect `true`, IRQ 7, and no `[dos]` section. |

## Left out

- Reading and writing files, `open` and the file encodings are not modelled. A configuration file comes in already read: its parsed sections, its raw lines and the encoding that decoded it (`Host.readConf`). A written file is its list of lines. The utf-8 then cp1250 retry of `parse_dosbox_config` is inside `readConf`. A character the output encoding cannot represent is not modelled.
- configparser's own parsing is not modelled: section headers, `=` delimiters, comments, continuation lines, the `DEFAULT` section. The tweak sections come in already as `ConfigParser.read_dict` would hand them over. Neither the lower-casing of option names, nor the `DEFAULT` section, nor the `%` interpolation the default parser applies to tweak values is modelled.
- The configuration is a value-level state plus a class holding it. A section added whole is stored as a copy, not as a live proxy onto the source parser. Nothing reads a source parser after import, so the difference cannot be observed.
- `to_posix_path`, `os.path.isfile`, `cuescanner.is_cue_file`, `cuescanner.valid_cue_file_paths` and SHA-1 are function parameters with no properties assumed. The model has the converter return a string. When `to_posix_path` returns `None` for a program path, the source fails in `os.path.split`. For the path of an autoexec mount line it writes the text `None` as the path; the model covers that only as a converter that returns the string `None`. The failure for a program path is not modelled. Writing the repaired cue sheet is a side effect that is not modelled.
- `assert commands or conf_files or exe` becomes the constructor's precondition. `assert conf_file` and `assert name` are not modelled.
- Configuration.DosboxConfiguration.Set: the exception class is not modelled, only the cause. In the source both failures raise `TypeError`. `set('autoexec', …)` indexes a list by a string. A missing section raises `TypeError` too, because `NoSectionError` is raised without the `section` argument its constructor needs, so the `NoSectionError` the docstring promises never reaches the caller. The model reports the two causes as `AutoexecIsNotASection` and `MissingSection` and leaves the state unchanged in both.
- Merge.SetOptionMeaning: as for `Set`, the failures are told apart by cause; the source raises `TypeError` for both.
- Case-insensitive matching covers ASCII letters only. Python's `IGNORECASE` also folds a few non-ASCII letters onto `i`, `s` and `k` (U+0130, U+0131, U+017F, U+212A). `str.lower` is modelled on ASCII letters; `str.strip` and `str.rstrip` use the full set of characters `str.isspace` accepts.
- AutoexecRewrite.UnquotedMountRewrite: a path that starts with `"` is excluded, because the quoted pattern may claim such a line first.
- LaunchRewrite.LaunchMountRewrite: a DIR that is empty or all blanks, and a DIR whose first word starts with `"`, are excluded. The first is not matched as a mount. For the second the quoted pattern may take the line. Leading blanks and newlines are covered.
- LaunchRewrite.LaunchLinesRewritten: the program file name is required to have no blank and no colon. Other names may be read as mount or drive-change lines and rewritten. The directory is limited as for `LaunchMountRewrite`.
- `parse_dosbox_arguments` (argparse), `create_dosbox_configuration`'s error logging, the `[sdl]` section of the generated file (screen resolution from settings), the `[cpu]`, `[mixer]` and `[midi]` sections, and the log and stderr messages are not modelled. These are I/O, the MIDI port scan and fixed text.
- `cleanup_old_conf_files` works on a model of the working directory as a set of file names. Directories and removal errors are not modelled.
