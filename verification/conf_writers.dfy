/**
 * The sections the generator writes from a merged configuration. A written
 * file is modelled as its lines: the file's text is each line followed by a
 * newline.
 */
module ConfWriters {
  import opened Wrappers
  import opened Text
  import opened Ini
  import opened Merge
  import MergeProperties
  import AutoexecRewrite

  /** How `str.format` spells an option value: a value-less option reads `None`. */
  function ValueText(v: Value): string
  {
    match v
    case Some(s) => s
    case None => "None"
  }

  /** `KEY=VALUE`. */
  function OptionLine(k: string, v: Value): string
  {
    k + "=" + ValueText(v)
  }

  // ---------------------------------------------------------------------
  // create_user_conf_file

  const FRAMESKIP := "frameskip"

  /** The render options the user file shows commented out: the publisher's choice is overridden elsewhere. */
  predicate Overridden(k: string)
  {
    k == "scaler" || k == "aspect"
  }

  /** The line an option of `[render]` becomes in the user file, when it is written at all. */
  function RenderedOption(k: string, v: Value): string
  {
    if Overridden(k) then "# " + OptionLine(k, v) else OptionLine(k, v)
  }

  /** The loop over `conf['render'].items()`: `frameskip` is dropped, `scaler` and `aspect` commented out, the rest copied. */
  function RenderOptionLines(opts: Options): (r: seq<string>)
    ensures |r| <= |opts|
  {
    if opts == [] then []
    else
      var (k, v) := opts[0];
      (if k == FRAMESKIP then [] else [RenderedOption(k, v)]) + RenderOptionLines(opts[1..])
  }

  /**
   * Every option but `frameskip` is written, and every line written is one of
   * them; a section without `frameskip` keeps one line per option.
   */
  lemma {:induction false} RenderOptionLinesMeaning(opts: Options)
    ensures forall i :: 0 <= i < |opts| && opts[i].0 != FRAMESKIP ==> RenderedOption(opts[i].0, opts[i].1) in RenderOptionLines(opts)
    ensures forall line :: line in RenderOptionLines(opts) ==>
      exists i :: 0 <= i < |opts| && opts[i].0 != FRAMESKIP && line == RenderedOption(opts[i].0, opts[i].1)
    ensures (forall i :: 0 <= i < |opts| ==> opts[i].0 != FRAMESKIP) ==> |RenderOptionLines(opts)| == |opts|
  {
    if opts != [] {
      var (k, v) := opts[0];
      var tail := opts[1..];
      RenderOptionLinesMeaning(tail);
      var r := RenderOptionLines(opts);
      var head := if k == FRAMESKIP then [] else [RenderedOption(k, v)];
      assert r == head + RenderOptionLines(tail);
      forall i | 0 <= i < |opts| && opts[i].0 != FRAMESKIP
        ensures RenderedOption(opts[i].0, opts[i].1) in r
      {
        if i > 0 {
          assert opts[i] == tail[i - 1];
        }
      }
      forall line | line in r
        ensures exists i :: 0 <= i < |opts| && opts[i].0 != FRAMESKIP && line == RenderedOption(opts[i].0, opts[i].1)
      {
        if line in head {
          assert opts[0].0 != FRAMESKIP && line == RenderedOption(opts[0].0, opts[0].1);
        } else {
          var j :| 0 <= j < |tail| && tail[j].0 != FRAMESKIP && line == RenderedOption(tail[j].0, tail[j].1);
          assert opts[j + 1] == tail[j];
        }
      }
      if forall i :: 0 <= i < |opts| ==> opts[i].0 != FRAMESKIP {
        assert forall i :: 0 <= i < |tail| ==> tail[i] == opts[i + 1];
      }
    }
  }

  /**
   * No written line sets `scaler`, `aspect` or `frameskip`: for option names
   * without `=` (as a configuration file's parser yields them) a line
   * starting `scaler=` can only come from `scaler`, which is commented out.
   */
  lemma NoLiveOverride(opts: Options, w: string)
    requires forall i :: 0 <= i < |opts| ==> '=' !in opts[i].0
    requires w == "scaler" || w == "aspect" || w == FRAMESKIP
    ensures forall line :: line in RenderOptionLines(opts) ==> !StartsWith(line, w + "=")
  {
    RenderOptionLinesMeaning(opts);
    forall line | line in RenderOptionLines(opts)
      ensures !StartsWith(line, w + "=")
    {
      var i :| 0 <= i < |opts| && opts[i].0 != FRAMESKIP && line == RenderedOption(opts[i].0, opts[i].1);
      var (k, v) := opts[i];
      if Overridden(k) {
        assert line[0] == '#' && (w + "=")[0] != '#';
      } else {
        assert line == k + "=" + ValueText(v);
        LiveLineKey(k, ValueText(v), w);
      }
    }
  }

  lemma LiveLineKey(k: string, rest: string, w: string)
    requires '=' !in k && !Overridden(k) && k != FRAMESKIP
    requires w == "scaler" || w == "aspect" || w == FRAMESKIP
    ensures !StartsWith(k + "=" + rest, w + "=")
  {
    assert '=' !in w by {
      if w == "scaler" {
        assert w == ['s', 'c', 'a', 'l', 'e', 'r'];
      } else if w == "aspect" {
        assert w == ['a', 's', 'p', 'e', 'c', 't'];
      } else {
        assert w == ['f', 'r', 'a', 'm', 'e', 's', 'k', 'i', 'p'];
      }
    }
    if StartsWith(k + "=" + rest, w + "=") {
      SameKey(k, w, rest);
    }
  }

  /** When `K=...` starts with `W=` and neither name holds `=`, the names are equal. */
  lemma SameKey(k: string, w: string, rest: string)
    requires '=' !in k && '=' !in w
    requires StartsWith(k + "=" + rest, w + "=")
    ensures k == w
  {
    var line := k + "=" + rest;
    var after := line[|w| + 1..];
    assert line == w + "=" + after;
    IndexOfAfter(k, '=', rest);
    IndexOfAfter(w, '=', after);
    assert k == line[..|k|] == line[..|w|] == w;
  }

  /** The head of `COMMENT_SECTION`, given how the DOSBox arguments print. */
  function CommentLines(argsText: string): seq<string>
  {
    ["# Generated by Boxtron", "# Based on args to Windows version of DOSBox:", "# " + argsText, ""]
  }

  /** `SDL_SECTION_2`. */
  const SDL_LINES: seq<string> := ["[sdl]", "# fullscreen=true", "# output=opengl", "# autolock=false", ""]

  /** `RENDER_SECTION_2`: the section header and the help on the two overridden options. */
  const RENDER_HELP: seq<string> := [
    "[render]",
    "# aspect: Do aspect correction for games using 320x200 resolution.",
    "#         Read more: https://www.dosbox.com/wiki/Dosbox.conf#aspect",
    "# scaler: Specifies which scaler is used to enlarge and enhance low resolution",
    "#         modes, before any scaling done through OpenGL.",
    "#         Read more: https://www.dosbox.com/wiki/Dosbox.conf#scaler"]

  /**
   * `create_user_conf_file(name, conf, dosbox_args)`: the header, the
   * commented `[sdl]` section, the filtered `[render]` section when there is
   * one, and the rewritten autoexec.
   */
  function UserConfLines(argsText: string, c: Conf, env: AutoexecRewrite.Env): seq<string>
  {
    CommentLines(argsText) + SDL_LINES
      + (if HasSection(c, "render") && "render" in c.sections then RENDER_HELP + RenderOptionLines(c.sections["render"]) + [""] else [])
      + (if HasSection(c, AUTOEXEC) then ["[autoexec]"] + AutoexecRewrite.ToLinuxAutoexec(env, c.autoexec) else [])
  }

  /**
   * For a well-formed configuration: the comment and `[sdl]` lines, then the
   * render block (its help text, its filtered options and a blank line)
   * exactly when the configuration has a `[render]` section, then the
   * `[autoexec]` header and one rewritten line per autoexec line, which
   * always end the file.
   */
  lemma UserConfShape(argsText: string, c: Conf, env: AutoexecRewrite.Env)
    requires WellFormed(c)
    ensures UserConfLines(argsText, c, env)
      == CommentLines(argsText) + SDL_LINES
        + (if "render" in c.sections then RENDER_HELP + RenderOptionLines(c.sections["render"]) + [""] else [])
        + (["[autoexec]"] + AutoexecRewrite.ToLinuxAutoexec(env, c.autoexec))
    ensures var lines := UserConfLines(argsText, c, env);
      && |lines| > 9 + |c.autoexec|
      && lines[..9] == CommentLines(argsText) + SDL_LINES
      && (lines[9] == "[render]" <==> "render" in c.sections)
      && lines[|lines| - |c.autoexec| - 1] == "[autoexec]"
      && lines[|lines| - |c.autoexec|..] == AutoexecRewrite.ToLinuxAutoexec(env, c.autoexec)
  {
    var pre := CommentLines(argsText) + SDL_LINES;
    var render := if "render" in c.sections then RENDER_HELP + RenderOptionLines(c.sections["render"]) + [""] else [];
    var rewritten := AutoexecRewrite.ToLinuxAutoexec(env, c.autoexec);
    assert HasSection(c, AUTOEXEC) && (HasSection(c, "render") <==> "render" in c.sections);
    assert |pre| == 9;
    assert render != [] ==> render[0] == "[render]";
    assert "[autoexec]" != "[render]";
    Layout(pre, render, "[autoexec]", rewritten);
  }

  /** Where the parts of `pre + block + ([header] + tail)` sit. */
  lemma Layout(pre: seq<string>, block: seq<string>, header: string, tail: seq<string>)
    ensures var lines := pre + block + ([header] + tail);
      && |lines| > |pre| + |tail|
      && lines[..|pre|] == pre
      && lines[|pre|] == (if block != [] then block[0] else header)
      && lines[|lines| - |tail| - 1] == header
      && lines[|lines| - |tail|..] == tail
  {
    var lines := pre + block + ([header] + tail);
    assert lines[|lines| - |tail|..] == tail;
  }

  // ---------------------------------------------------------------------
  // create_auto_conf_file: the sections read from the configuration

  /**
   * `conf[section].get(option, default)` behind `conf and
   * conf.has_section(section)`: the option's value when the configuration
   * has it, else the default. `None` stands for no configuration.
   */
  function SectionGet(conf: Option<Conf>, section: string, option: string, default: string): string
  {
    if conf.Some? && HasSection(conf.value, section) then
      match OptionValue(conf.value, section, option)
      case Some(v) => ValueText(v)
      case None => default
    else default
  }

  /** What a read gives when the configuration is the one constructed: the value read off the layers, else the default. */
  function LayeredGet(inv: Invocation, host: Host, section: string, option: string, default: string): string
  {
    match MergeProperties.LayeredValue(inv, host, section, option)
    case Some(v) => ValueText(v)
    case None => default
  }

  /** Reading an option of the constructed configuration gives what the layers say, or the default. */
  lemma ResolvedSectionGet(inv: Invocation, host: Host, section: string, option: string, default: string)
    requires section != AUTOEXEC
    ensures SectionGet(Some(Resolve(inv, host)), section, option, default) == LayeredGet(inv, host, section, option, default)
  {
    MergeProperties.ResolvedOptionValue(inv, host, section, option);
    ResolveWellFormed(inv, host);
  }

  /**
   * The tweak sections have the last word; among the files the last one
   * defining the option does; a value nobody gives reads as the default.
   */
  lemma LayeredGetMeaning(inv: Invocation, host: Host, section: string, option: string, default: string)
    ensures var r, texts := LayeredGet(inv, host, section, option, default), Texts(inv, host);
      && (LayerLookup(inv.tweak, section, option).Some? ==> r == ValueText(LayerLookup(inv.tweak, section, option).value))
      && (LayerLookup(inv.tweak, section, option).None? ==>
            forall i :: MergeProperties.LastDefinedIn(texts, i, section, option) ==>
              r == ValueText(LayerLookup(texts[i].layer, section, option).value))
      && (LayerLookup(inv.tweak, section, option).None?
          && (forall i :: 0 <= i < |texts| ==> LayerLookup(texts[i].layer, section, option).None?)
          ==> r == default)
  {
    MergeProperties.FilesLookupMeaning(Texts(inv, host), section, option);
  }

  /** `write_render_section(conf, file)`: the aspect correction the configuration forces, `true` by default, and the chosen scaler. */
  function RenderSectionLines(conf: Option<Conf>, scaler: string): (r: seq<string>)
    ensures |r| == 4 && r[0] == "[render]" && r[2] == "scaler=" + scaler && r[3] == ""
    ensures r[1] == "aspect=" + SectionGet(conf, "render", "force_aspect", "true")
  {
    ["[render]", "aspect=" + SectionGet(conf, "render", "force_aspect", "true"), "scaler=" + scaler, ""]
  }

  /** DOSBox's own Sound Blaster defaults. */
  const SB_BASE := "220"
  const SB_IRQ := "7"
  const SB_DMA := "1"
  const SB_HDMA := "5"

  /** `write_sblaster_section(conf, file)`: a Sound Blaster 16 at DOSBox's defaults, with the IRQ the configuration forces. */
  function SblasterSectionLines(conf: Option<Conf>): (r: seq<string>)
    ensures |r| == 7 && r[0] == "[sblaster]" && r[1] == "sbtype=sb16" && r[2] == "sbbase=220"
    ensures r[3] == "irq=" + SectionGet(conf, "sblaster", "force_irq", SB_IRQ)
    ensures r[4] == "dma=1" && r[5] == "hdma=5" && r[6] == ""
  {
    ["[sblaster]", "sbtype=sb16", "sbbase=" + SB_BASE, "irq=" + SectionGet(conf, "sblaster", "force_irq", SB_IRQ),
     "dma=" + SB_DMA, "hdma=" + SB_HDMA, ""]
  }

  /** `write_dos_section(conf, file)`: written only for a configuration with a `[dos]` section; each memory option defaults to `true`. */
  function DosSectionLines(conf: Option<Conf>): (r: seq<string>)
    ensures r != [] <==> conf.Some? && HasSection(conf.value, "dos")
    ensures r != [] ==>
      && |r| == 5 && r[0] == "[dos]"
      && r[1] == "xms=" + SectionGet(conf, "dos", "xms", "true")
      && r[2] == "ems=" + SectionGet(conf, "dos", "ems", "true")
      && r[3] == "umb=" + SectionGet(conf, "dos", "umb", "true")
  {
    if conf.Some? && HasSection(conf.value, "dos") then
      ["[dos]", "xms=" + SectionGet(conf, "dos", "xms", "true"), "ems=" + SectionGet(conf, "dos", "ems", "true"),
       "umb=" + SectionGet(conf, "dos", "umb", "true"), ""]
    else []
  }

  /** For the constructed configuration: the aspect correction the layers give (`true` when none does), and the chosen scaler. */
  lemma RenderResolved(inv: Invocation, host: Host, scaler: string)
    ensures RenderSectionLines(Some(Resolve(inv, host)), scaler)
      == ["[render]", "aspect=" + LayeredGet(inv, host, "render", "force_aspect", "true"), "scaler=" + scaler, ""]
  {
    ResolvedSectionGet(inv, host, "render", "force_aspect", "true");
  }

  /** For the constructed configuration: every fixed line of the Sound Blaster section, and the IRQ the layers give (7 when none does). */
  lemma SblasterResolved(inv: Invocation, host: Host)
    ensures SblasterSectionLines(Some(Resolve(inv, host)))
      == ["[sblaster]", "sbtype=sb16", "sbbase=220", "irq=" + LayeredGet(inv, host, "sblaster", "force_irq", "7"),
          "dma=1", "hdma=5", ""]
  {
    assert "sblaster"[0] != AUTOEXEC[0];
    ResolvedSectionGet(inv, host, "sblaster", "force_irq", SB_IRQ);
  }

  /**
   * For the constructed configuration: `[dos]` is written exactly when some
   * layer, a file or the tweak, names that section, with `xms`, `ems` and
   * `umb` in that order, each as the layers give it (`true` when none does).
   */
  lemma DosResolved(inv: Invocation, host: Host)
    ensures var texts := Texts(inv, host);
      DosSectionLines(Some(Resolve(inv, host)))
      == if LayerHas(inv.tweak, "dos") || exists i :: 0 <= i < |texts| && LayerHas(texts[i].layer, "dos") then
           ["[dos]", "xms=" + LayeredGet(inv, host, "dos", "xms", "true"), "ems=" + LayeredGet(inv, host, "dos", "ems", "true"),
            "umb=" + LayeredGet(inv, host, "dos", "umb", "true"), ""]
         else []
  {
    MergeProperties.ResolvedValues(inv, host, "dos", "xms");
    ResolveWellFormed(inv, host);
    ResolvedSectionGet(inv, host, "dos", "xms", "true");
    ResolvedSectionGet(inv, host, "dos", "ems", "true");
    ResolvedSectionGet(inv, host, "dos", "umb", "true");
  }

  /** Without a configuration every value read is the default: aspect correction on, IRQ 7, no `[dos]` section. */
  lemma NoConfDefaults(scaler: string)
    ensures RenderSectionLines(None, scaler)[1] == "aspect=true"
    ensures SblasterSectionLines(None)[3] == "irq=7"
    ensures DosSectionLines(None) == []
  {
  }
}
