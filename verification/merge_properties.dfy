/**
 * What the construction of a `DosboxConfiguration` promises, proved about
 * `Merge.Resolve`: option precedence across layers, the order of the autoexec
 * script, the resulting encoding, and the launch lines.
 */
module MergeProperties {
  import opened Wrappers
  import opened Ini
  import opened Merge
  import AutoexecCapture
  import PosixPath

  /** The autoexec lines one file layer contributes. */
  function Contribution(t: ConfText, noautoexec: bool): seq<string>
  {
    if !noautoexec && LayerHas(t.layer, AUTOEXEC) then AutoexecCapture.Captured(t.lines) else []
  }

  /** The file layers' contributions, concatenated front to back. */
  function FileAutoexec(texts: seq<ConfText>, noautoexec: bool): seq<string>
  {
    if texts == [] then [] else Contribution(texts[0], noautoexec) + FileAutoexec(texts[1..], noautoexec)
  }

  lemma {:induction false} FileAutoexecSnoc(texts: seq<ConfText>, t: ConfText, noautoexec: bool)
    ensures FileAutoexec(texts + [t], noautoexec) == FileAutoexec(texts, noautoexec) + Contribution(t, noautoexec)
  {
    if texts == [] {
      assert [t][1..] == [];
    } else {
      assert (texts + [t])[1..] == texts[1..] + [t];
      FileAutoexecSnoc(texts[1..], t, noautoexec);
    }
  }

  /** One file layer, field by field. */
  lemma AddFileFields(c: Conf, t: ConfText, noautoexec: bool)
    ensures var r := AddFile(c, t, noautoexec);
      && r.autoexec == c.autoexec + Contribution(t, noautoexec)
      && r.encoding == (if t.encoding != UTF8 then t.encoding else c.encoding)
      && r.sections == ImportSections(c, t.layer).sections
      && r.names == ImportSections(c, t.layer).names
  {
  }

  /** The file layers append their contributions, in order, and never remove or reorder a line. */
  lemma {:induction false} FileLayersAutoexec(c: Conf, texts: seq<ConfText>, noautoexec: bool)
    ensures FileLayers(c, texts, noautoexec).autoexec == c.autoexec + FileAutoexec(texts, noautoexec)
  {
    if texts != [] {
      var prefix, t := texts[..|texts| - 1], texts[|texts| - 1];
      assert texts == prefix + [t];
      var before := FileLayers(c, prefix, noautoexec);
      FileLayersAutoexec(c, prefix, noautoexec);
      AddFileAutoexec(before, t, noautoexec);
      FileAutoexecSnoc(prefix, t, noautoexec);
      AppendAssoc(c.autoexec, FileAutoexec(prefix, noautoexec), Contribution(t, noautoexec));
      calc {
        FileLayers(c, texts, noautoexec).autoexec;
        AddFile(before, t, noautoexec).autoexec;
        before.autoexec + Contribution(t, noautoexec);
        c.autoexec + FileAutoexec(prefix, noautoexec) + Contribution(t, noautoexec);
        c.autoexec + (FileAutoexec(prefix, noautoexec) + Contribution(t, noautoexec));
        c.autoexec + FileAutoexec(prefix + [t], noautoexec);
      }
    }
  }

  lemma AppendAssoc(a: seq<string>, b: seq<string>, d: seq<string>)
    ensures a + b + d == a + (b + d)
  {
  }

  /** One file layer appends its contribution to the autoexec list. */
  lemma AddFileAutoexec(c: Conf, t: ConfText, noautoexec: bool)
    ensures AddFile(c, t, noautoexec).autoexec == c.autoexec + Contribution(t, noautoexec)
  {
  }

  /** With `noautoexec`, no file layer contributes a line. */
  lemma {:induction false} SuppressedFileAutoexec(texts: seq<ConfText>)
    ensures FileAutoexec(texts, true) == []
  {
    if texts != [] {
      SuppressedFileAutoexec(texts[1..]);
    }
  }

  /**
   * The final autoexec script is, in order, every file layer's captured lines
   * (when not suppressed and the layer has an autoexec section), then the
   * `-c` commands, then the launch lines; `noautoexec` suppresses only the
   * file layers.
   */
  lemma ResolvedAutoexec(inv: Invocation, host: Host)
    ensures Resolve(inv, host).autoexec
      == FileAutoexec(Texts(inv, host), inv.noautoexec) + inv.commands
         + (if Launches(inv.exe) then LaunchLines(host.toPosix(inv.exe.value), inv.exitAfterExe) else [])
    ensures inv.noautoexec ==>
      Resolve(inv, host).autoexec == inv.commands + (if Launches(inv.exe) then LaunchLines(host.toPosix(inv.exe.value), inv.exitAfterExe) else [])
  {
    var texts := Texts(inv, host);
    var c1 := FileLayers(Initial(), texts, inv.noautoexec);
    FileLayersAutoexec(Initial(), texts, inv.noautoexec);
    var files := FileAutoexec(texts, inv.noautoexec);
    assert c1.autoexec == files;
    var c2 := c1.(autoexec := c1.autoexec + inv.commands);
    var c3 := ImportSections(c2, inv.tweak);
    assert c3.autoexec == files + inv.commands;
    var launch := if Launches(inv.exe) then LaunchLines(host.toPosix(inv.exe.value), inv.exitAfterExe) else [];
    assert Resolve(inv, host).autoexec == c3.autoexec + launch;
    if inv.noautoexec {
      SuppressedFileAutoexec(texts);
      assert files + inv.commands == inv.commands;
    }
  }

  /** The file layers' encoding: the last one that is not `utf-8`, else the encoding before them. */
  lemma {:induction false} FileLayersEncoding(c: Conf, texts: seq<ConfText>, noautoexec: bool)
    ensures (forall i :: 0 <= i < |texts| ==> texts[i].encoding == UTF8) ==> FileLayers(c, texts, noautoexec).encoding == c.encoding
    ensures forall i :: 0 <= i < |texts| && texts[i].encoding != UTF8 && (forall j :: i < j < |texts| ==> texts[j].encoding == UTF8) ==>
      FileLayers(c, texts, noautoexec).encoding == texts[i].encoding
  {
    if texts != [] {
      var prefix := texts[..|texts| - 1];
      FileLayersEncoding(c, prefix, noautoexec);
      AddFileFields(FileLayers(c, prefix, noautoexec), texts[|texts| - 1], noautoexec);
      assert forall i :: 0 <= i < |prefix| ==> prefix[i] == texts[i];
    }
  }

  /**
   * The resulting encoding is `utf-8` exactly when every file layer was read
   * as `utf-8`; otherwise it is the encoding of the last layer that was not.
   */
  lemma ResolvedEncoding(inv: Invocation, host: Host)
    ensures var texts, r := Texts(inv, host), Resolve(inv, host);
      && (r.encoding == UTF8 <==> forall i :: 0 <= i < |texts| ==> texts[i].encoding == UTF8)
      && (r.encoding != UTF8 ==>
            exists i :: 0 <= i < |texts| && texts[i].encoding == r.encoding && forall j :: i < j < |texts| ==> texts[j].encoding == UTF8)
  {
    var texts := Texts(inv, host);
    FileLayersEncoding(Initial(), texts, inv.noautoexec);
    if exists i :: 0 <= i < |texts| && texts[i].encoding != UTF8 {
      var i := LastNonUtf8(texts);
      assert Resolve(inv, host).encoding == texts[i].encoding;
    }
  }

  /** The index of the last source whose encoding is not `utf-8`. */
  lemma LastNonUtf8(texts: seq<ConfText>) returns (i: nat)
    requires exists i :: 0 <= i < |texts| && texts[i].encoding != UTF8
    ensures i < |texts| && texts[i].encoding != UTF8
    ensures forall j :: i < j < |texts| ==> texts[j].encoding == UTF8
  {
    i := |texts| - 1;
    while texts[i].encoding == UTF8
      invariant 0 <= i < |texts|
      invariant forall j :: i < j < |texts| ==> texts[j].encoding == UTF8
      invariant exists i' :: 0 <= i' <= i && texts[i'].encoding != UTF8
      decreases i
    {
      i := i - 1;
    }
  }

  /** Layer `i` is the last file layer that defines option `k` of section `n`. */
  ghost predicate LastDefinedIn(texts: seq<ConfText>, i: int, n: string, k: string)
  {
    && 0 <= i < |texts| && LayerLookup(texts[i].layer, n, k).Some?
    && forall j :: i < j < |texts| ==> LayerLookup(texts[j].layer, n, k).None?
  }

  /** Option `k` of section `n` as the last file layer defining it has it. */
  function FilesLookup(texts: seq<ConfText>, n: string, k: string): Option<Value>
  {
    if texts == [] then None
    else if LayerLookup(texts[|texts| - 1].layer, n, k).Some? then LayerLookup(texts[|texts| - 1].layer, n, k)
    else FilesLookup(texts[..|texts| - 1], n, k)
  }

  /** `FilesLookup` finds the last layer defining the option, and nothing when no layer defines it. */
  lemma FilesLookupMeaning(texts: seq<ConfText>, n: string, k: string)
    ensures FilesLookup(texts, n, k).None? <==> forall i :: 0 <= i < |texts| ==> LayerLookup(texts[i].layer, n, k).None?
    ensures forall i :: LastDefinedIn(texts, i, n, k) ==> FilesLookup(texts, n, k) == LayerLookup(texts[i].layer, n, k)
  {
    FilesLookupNone(texts, n, k);
    forall i | LastDefinedIn(texts, i, n, k)
      ensures FilesLookup(texts, n, k) == LayerLookup(texts[i].layer, n, k)
    {
      FilesLookupLast(texts, i, n, k);
    }
  }

  lemma {:induction false} FilesLookupNone(texts: seq<ConfText>, n: string, k: string)
    ensures FilesLookup(texts, n, k).None? <==> forall i :: 0 <= i < |texts| ==> LayerLookup(texts[i].layer, n, k).None?
  {
    if texts != [] {
      var prefix := texts[..|texts| - 1];
      FilesLookupNone(prefix, n, k);
      assert forall i :: 0 <= i < |prefix| ==> prefix[i] == texts[i];
    }
  }

  lemma {:induction false} FilesLookupLast(texts: seq<ConfText>, i: int, n: string, k: string)
    requires LastDefinedIn(texts, i, n, k)
    ensures FilesLookup(texts, n, k) == LayerLookup(texts[i].layer, n, k)
  {
    var last := |texts| - 1;
    if i < last {
      var prefix := texts[..last];
      assert LayerLookup(texts[last].layer, n, k).None?;
      assert prefix[i] == texts[i];
      assert forall j :: i < j < |prefix| ==> prefix[j] == texts[j];
      assert LastDefinedIn(prefix, i, n, k);
      FilesLookupLast(prefix, i, n, k);
    }
  }

  /** Over the file layers, the last layer defining an option decides its value; otherwise it keeps the value it had. */
  lemma {:induction false} FileLayersValue(c: Conf, texts: seq<ConfText>, noautoexec: bool, n: string, k: string)
    requires WellFormed(c) && n != AUTOEXEC
    ensures OptionValue(FileLayers(c, texts, noautoexec), n, k)
      == if FilesLookup(texts, n, k).Some? then FilesLookup(texts, n, k) else OptionValue(c, n, k)
  {
    if texts != [] {
      var prefix, t := texts[..|texts| - 1], texts[|texts| - 1];
      var before := FileLayers(c, prefix, noautoexec);
      assert FileLayers(c, texts, noautoexec) == AddFile(before, t, noautoexec);
      FileLayersValue(c, prefix, noautoexec, n, k);
      FileLayersWellFormed(c, prefix, noautoexec);
      ImportSectionsMeaning(before, t.layer);
      AddFileFields(before, t, noautoexec);
    }
  }

  /** A section is present after the file layers when it was before or some layer names it. */
  lemma {:induction false} FileLayersPresence(c: Conf, texts: seq<ConfText>, noautoexec: bool, n: string)
    requires WellFormed(c) && n != AUTOEXEC
    ensures n in FileLayers(c, texts, noautoexec).sections
      <==> n in c.sections || exists i :: 0 <= i < |texts| && LayerHas(texts[i].layer, n)
  {
    if texts != [] {
      var prefix, t := texts[..|texts| - 1], texts[|texts| - 1];
      var before := FileLayers(c, prefix, noautoexec);
      assert FileLayers(c, texts, noautoexec) == AddFile(before, t, noautoexec);
      FileLayersPresence(c, prefix, noautoexec, n);
      FileLayersWellFormed(c, prefix, noautoexec);
      ImportSectionsMeaning(before, t.layer);
      AddFileFields(before, t, noautoexec);
      SomeLayerSnoc(texts, n);
    }
  }

  /** Some file names the section exactly when an earlier file or the last one does. */
  lemma SomeLayerSnoc(texts: seq<ConfText>, n: string)
    requires texts != []
    ensures var prefix := texts[..|texts| - 1];
      (exists i :: 0 <= i < |texts| && LayerHas(texts[i].layer, n))
      <==> (exists i :: 0 <= i < |prefix| && LayerHas(prefix[i].layer, n)) || LayerHas(texts[|texts| - 1].layer, n)
  {
    var prefix := texts[..|texts| - 1];
    if exists i :: 0 <= i < |texts| && LayerHas(texts[i].layer, n) {
      var i :| 0 <= i < |texts| && LayerHas(texts[i].layer, n);
      if i < |prefix| {
        assert LayerHas(prefix[i].layer, n);
      }
    }
    if exists i :: 0 <= i < |prefix| && LayerHas(prefix[i].layer, n) {
      var i :| 0 <= i < |prefix| && LayerHas(prefix[i].layer, n);
      assert texts[i] == prefix[i];
    }
  }

  /**
   * Option precedence of the whole construction: the tweak sections win over
   * every file layer, and among file layers the last one defining an option
   * wins; an option no layer defines is absent. A section is present exactly
   * when some layer names it, and a layer's `autoexec` section never becomes
   * an option dict.
   */
  lemma ResolvedValues(inv: Invocation, host: Host, n: string, k: string)
    requires n != AUTOEXEC
    ensures var texts, r := Texts(inv, host), Resolve(inv, host);
      && AUTOEXEC !in r.sections
      && (n in r.sections <==> LayerHas(inv.tweak, n) || exists i :: 0 <= i < |texts| && LayerHas(texts[i].layer, n))
      && (LayerLookup(inv.tweak, n, k).Some? ==> OptionValue(r, n, k) == LayerLookup(inv.tweak, n, k))
      && (LayerLookup(inv.tweak, n, k).None? ==>
            forall i :: LastDefinedIn(texts, i, n, k) ==> OptionValue(r, n, k) == LayerLookup(texts[i].layer, n, k))
      && (LayerLookup(inv.tweak, n, k).None? && (forall i :: 0 <= i < |texts| ==> LayerLookup(texts[i].layer, n, k).None?) ==>
            OptionValue(r, n, k) == None)
  {
    var texts := Texts(inv, host);
    var c1 := FileLayers(Initial(), texts, inv.noautoexec);
    FileLayersValue(Initial(), texts, inv.noautoexec, n, k);
    FileLayersPresence(Initial(), texts, inv.noautoexec, n);
    FilesLookupMeaning(texts, n, k);
    FileLayersWellFormed(Initial(), texts, inv.noautoexec);
    TweakedValue(c1, inv.commands, inv.tweak, n, k);
    ResolvedSections(inv, host);
  }

  /**
   * The value an option ends up with, read off the layers without merging
   * them: the tweak's when it gives one, else that of the last file
   * defining it, else none.
   */
  function LayeredValue(inv: Invocation, host: Host, n: string, k: string): Option<Value>
  {
    if LayerLookup(inv.tweak, n, k).Some? then LayerLookup(inv.tweak, n, k) else FilesLookup(Texts(inv, host), n, k)
  }

  /** The constructed configuration holds, for every option, the value read off the layers. */
  lemma ResolvedOptionValue(inv: Invocation, host: Host, n: string, k: string)
    requires n != AUTOEXEC
    ensures OptionValue(Resolve(inv, host), n, k) == LayeredValue(inv, host, n, k)
  {
    var texts := Texts(inv, host);
    var c1 := FileLayers(Initial(), texts, inv.noautoexec);
    FileLayersValue(Initial(), texts, inv.noautoexec, n, k);
    FileLayersWellFormed(Initial(), texts, inv.noautoexec);
    TweakedValue(c1, inv.commands, inv.tweak, n, k);
    ResolvedSections(inv, host);
  }

  /** The tweak sections over the file layers, for one option. */
  lemma TweakedValue(c1: Conf, commands: seq<string>, tweak: Layer, n: string, k: string)
    requires WellFormed(c1) && n != AUTOEXEC
    ensures var c3 := ImportSections(c1.(autoexec := c1.autoexec + commands), tweak);
      && AUTOEXEC !in c3.sections
      && (n in c3.sections <==> n in c1.sections || LayerHas(tweak, n))
      && OptionValue(c3, n, k) == if LayerLookup(tweak, n, k).Some? then LayerLookup(tweak, n, k) else OptionValue(c1, n, k)
  {
    var c2 := c1.(autoexec := c1.autoexec + commands);
    assert OptionValue(c2, n, k) == OptionValue(c1, n, k);
    ImportSectionsMeaning(c2, tweak);
  }

  /** The launch lines touch only the autoexec: the sections are those after the tweak. */
  lemma ResolvedSections(inv: Invocation, host: Host)
    ensures var c1 := FileLayers(Initial(), Texts(inv, host), inv.noautoexec);
      Resolve(inv, host).sections == ImportSections(c1.(autoexec := c1.autoexec + inv.commands), inv.tweak).sections
  {
  }
}
