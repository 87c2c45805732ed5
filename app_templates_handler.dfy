/**
 * The application-templates handler (ApplicationTemplatesConfigurationHandler),
 * parameterised by its subclass's settings: copies the ".gtmpl" files of every
 * selected template's export under the DMS location, merges the exported
 * title maps, and declares one portlet template per selected path to the
 * application template manager.
 */
module AppTemplatesHandler {
  import opened Wrappers
  import opened Sequences
  import opened Strings
  import opened KernelXml
  import opened Archive
  import opened Paths
  import opened Platform
  import opened Utils
  import opened HandlerBase

  /**
   * What a subclass passes to the constructor: the templates' home in the
   * WAR, the configuration file's name, the managed path the selection is
   * filtered on, and the portlet the templates belong to.
   */
  datatype Settings = Settings(templatesHome: string, configurationName: string, stagingPath: string, portletName: string)

  /** An entry that is copied: not a directory, a non-empty name ending in ".gtmpl". */
  predicate IsTemplateFile(e: Entry) {
    !IsDirectory(e) && e.name != "" && EndsWith(e.name, ".gtmpl")
  }

  /** The directory and empty-name tests are implied by the suffix test. */
  lemma TemplateFileBySuffix(e: Entry)
    ensures IsTemplateFile(e) <==> EndsWith(e.name, ".gtmpl")
  {
    if EndsWith(e.name, ".gtmpl") {
      assert e.name[|e.name| - 1] == 'l';
    }
  }

  /** The copy of a template file, bytes unchanged, under the DMS location. */
  function TemplateCopy(ext: string, e: Entry): Entry {
    Entry(StreamEntryName(DmsLocation + e.name, ext), e.content)
  }

  /** The copies of one export's template files, in entry order. */
  function TemplateCopies(ext: string, es: seq<Entry>): seq<Entry>
    decreases |es|
  {
    if es == [] then []
    else
      var e := es[|es| - 1];
      TemplateCopies(ext, es[..|es| - 1]) + (if IsTemplateFile(e) then [TemplateCopy(ext, e)] else [])
  }

  /** Exactly the template files are copied, and nothing else. */
  lemma {:induction false} TemplateCopiesExactly(ext: string, es: seq<Entry>)
    ensures forall w :: w in TemplateCopies(ext, es) <==> exists e :: e in es && IsTemplateFile(e) && w == TemplateCopy(ext, e)
    ensures |TemplateCopies(ext, es)| <= |es|
    decreases |es|
  {
    if es != [] {
      var init := es[..|es| - 1];
      TemplateCopiesExactly(ext, init);
      assert es == init + [es[|es| - 1]];
    }
  }

  /** The titles one export contributes: its metadata's title map, or none without readable metadata. */
  function TitlesOf(svc: Services, es: seq<Entry>): map<string, string> {
    var metadata := ApplicationTemplatesMetadata(svc, es);
    if metadata.Titles? then metadata.titles else map[]
  }

  /** The export of a selected path succeeds, and its metadata, when it has some, unmarshals. */
  predicate ExportReadable(svc: Services, path: string) {
    ExportOf(svc, path, []).Some? && !ApplicationTemplatesMetadata(svc, ExportOf(svc, path, []).value).Unreadable?
  }

  /** The entries written and the titles merged over the exports so far, and whether an export failed. */
  datatype Exports = Exports(writes: seq<Entry>, titles: map<string, string>, failed: bool)

  /**
   * The export loop over the selected paths, in order: each export's titles
   * are merged over the earlier ones and its template files copied; a
   * failed export, or metadata that does not unmarshal, escapes before that
   * export's copies and ends the loop.
   */
  function TemplateExports(svc: Services, ext: string, paths: seq<string>): Exports
    decreases |paths|
  {
    if paths == [] then Exports([], map[], false)
    else
      var before := TemplateExports(svc, ext, paths[..|paths| - 1]);
      var zip := ExportOf(svc, paths[|paths| - 1], []);
      if before.failed then before
      else if zip.None? || ApplicationTemplatesMetadata(svc, zip.value).Unreadable? then before.(failed := true)
      else Exports(before.writes + TemplateCopies(ext, zip.value), before.titles + TitlesOf(svc, zip.value), false)
  }

  /** Once an export has failed, the loop's result is settled. */
  lemma {:induction false} FailureSticks(svc: Services, ext: string, paths: seq<string>, k: nat)
    requires k <= |paths| && TemplateExports(svc, ext, paths[..k]).failed
    ensures TemplateExports(svc, ext, paths) == TemplateExports(svc, ext, paths[..k])
    decreases |paths| - k
  {
    if k < |paths| {
      assert paths[..k + 1][..k] == paths[..k];
      FailureSticks(svc, ext, paths, k + 1);
    } else {
      assert paths[..k] == paths;
    }
  }

  /**
   * The loop fails exactly when some export fails or holds metadata that
   * does not unmarshal; when none does, a title
   * is known exactly when some export's metadata names it, and the title kept
   * is the one of the last export naming it.
   */
  lemma {:induction false} TitlesMerged(svc: Services, ext: string, paths: seq<string>)
    ensures !TemplateExports(svc, ext, paths).failed <==> forall i :: 0 <= i < |paths| ==> ExportReadable(svc, paths[i])
    ensures !TemplateExports(svc, ext, paths).failed ==>
      forall key :: key in TemplateExports(svc, ext, paths).titles <==>
        exists i :: 0 <= i < |paths| && key in TitlesOf(svc, ExportOf(svc, paths[i], []).value)
    decreases |paths|
  {
    if paths != [] {
      var init := paths[..|paths| - 1];
      TitlesMerged(svc, ext, init);
      assert forall i :: 0 <= i < |init| ==> init[i] == paths[i];
    }
  }

  /** The title a key gets is the one of the last export whose metadata names it. */
  lemma {:induction false} LaterExportWins(svc: Services, ext: string, paths: seq<string>, i: nat, key: string)
    requires i < |paths| && !TemplateExports(svc, ext, paths).failed
    requires ExportOf(svc, paths[i], []).Some? && key in TitlesOf(svc, ExportOf(svc, paths[i], []).value)
    requires forall j :: i < j < |paths| && ExportOf(svc, paths[j], []).Some? ==> key !in TitlesOf(svc, ExportOf(svc, paths[j], []).value)
    ensures key in TemplateExports(svc, ext, paths).titles
    ensures TemplateExports(svc, ext, paths).titles[key] == TitlesOf(svc, ExportOf(svc, paths[i], []).value)[key]
    decreases |paths|
  {
    var init := paths[..|paths| - 1];
    var last := ExportOf(svc, paths[|paths| - 1], []);
    if i < |paths| - 1 {
      assert init[i] == paths[i];
      LaterExportWins(svc, ext, init, i, key);
      assert key !in TitlesOf(svc, last.value);
    }
  }

  /**
   * The object parameter of one selected path: the path loses its staging
   * prefix and is split on '/' into category and template name; the title is
   * the merged title of the path without "/ecmadmin/", or the template name.
   * None when the split gives fewer than two segments (the array access throws).
   */
  function TemplateParam(s: Settings, titles: map<string, string>, path: string): (r: Option<Param>)
    ensures r.None? <==> |Split(ReplaceAll(path, s.stagingPath + "/", ""), "/")| < 2
    ensures r.Some? ==> r.value.ObjectParam? && r.value.obj.PortletTemplateConfig?
    ensures r.Some? ==> r.value.name == ReplaceAll(r.value.obj.templateName, ".gtmpl", "")
    ensures r.Some? && ReplaceAll(path, "/ecmadmin/", "") in titles ==> r.value.obj.title == titles[ReplaceAll(path, "/ecmadmin/", "")]
    ensures r.Some? && ReplaceAll(path, "/ecmadmin/", "") !in titles ==> r.value.obj.title == r.value.obj.templateName
  {
    var parts := Split(ReplaceAll(path, s.stagingPath + "/", ""), "/");
    if |parts| < 2 then None
    else
      var relative := ReplaceAll(path, "/ecmadmin/", "");
      var title := if relative in titles then titles[relative] else parts[1];
      Some(ObjectParam(ReplaceAll(parts[1], ".gtmpl", ""), PortletTemplateConfig(parts[0], parts[1], title)))
  }

  /** The object parameters of the selected paths, in order; None once one path cannot be split. */
  function TemplateParams(s: Settings, titles: map<string, string>, paths: seq<string>): Option<seq<Param>> {
    MapAll(path => TemplateParam(s, titles, path), paths)
  }

  /** One parameter per selected path, in order, when every path splits; otherwise the run throws. */
  lemma TemplateParamsExactly(s: Settings, titles: map<string, string>, paths: seq<string>)
    ensures TemplateParams(s, titles, paths).Some? <==> forall i :: 0 <= i < |paths| ==> TemplateParam(s, titles, paths[i]).Some?
    ensures TemplateParams(s, titles, paths).Some? ==>
      |TemplateParams(s, titles, paths).value| == |paths| &&
      forall i :: 0 <= i < |paths| ==> TemplateParams(s, titles, paths).value[i] == TemplateParam(s, titles, paths[i]).value
  {
    MapAllExactly(path => TemplateParam(s, titles, path), paths);
  }

  /** A path that cannot be split settles the parameters. */
  lemma {:induction false} ParamFailureSticks(s: Settings, titles: map<string, string>, paths: seq<string>, k: nat)
    requires k <= |paths| && TemplateParams(s, titles, paths[..k]).None?
    ensures TemplateParams(s, titles, paths).None?
    decreases |paths| - k
  {
    if k < |paths| {
      assert paths[..k + 1][..k] == paths[..k];
      ParamFailureSticks(s, titles, paths, k + 1);
    } else {
      assert paths[..k] == paths;
    }
  }

  /** A path built as staging path, '/', category, '/', template file name is split back into its category and name. */
  lemma TemplatePathParsed(s: Settings, titles: map<string, string>, category: string, name: string)
    requires '/' !in category && '/' !in name && name != []
    requires !Contains(category + "/" + name, s.stagingPath + "/")
    ensures TemplateParam(s, titles, s.stagingPath + "/" + category + "/" + name).Some?
    ensures TemplateParam(s, titles, s.stagingPath + "/" + category + "/" + name).value.obj.category == category
    ensures TemplateParam(s, titles, s.stagingPath + "/" + category + "/" + name).value.obj.templateName == name
  {
    var prefix := s.stagingPath + "/";
    var rest := category + "/" + name;
    assert s.stagingPath + "/" + category + "/" + name == prefix + rest;
    ReplaceLeading(prefix, rest, "");
    ReplaceAbsent(rest, prefix, "");
    assert "" + rest == rest;
    MissingCharNotContained(name, "/", '/');
    SplitTwo(category, name, "/");
  }

  /** A template file "<base>.gtmpl", with no '.' in its base, gives a parameter named "<base>". */
  lemma ParamNameDropsSuffix(base: string)
    requires '.' !in base
    ensures ReplaceAll(base + ".gtmpl", ".gtmpl", "") == base
  {
    ReplaceKeepsHead(base, ".gtmpl", ".gtmpl", "");
    ReplaceLeading(".gtmpl", "", "");
    assert ".gtmpl" + "" == ".gtmpl";
    assert base + "" == base;
  }

  /** The two fixed parameters: the portlet's name and its template path, in war: form with the name substituted. */
  function BaseParams(s: Settings, ext: string): InitParams {
    var params := AddParam(map[], ValueParam("portletName", s.portletName));
    AddParam(params, ValueParam("portlet.template.path", Substitute(WarForm(s.templatesHome), ext)))
  }

  /** The "templates.plugin" plugin holding the fixed parameters and then the template parameters. */
  function TemplatesPlugin(s: Settings, ext: string, templates: seq<Param>): ComponentPlugin {
    CreateComponentPlugin("templates.plugin", PortletTemplatePlugin, "addPlugin", Some(AddParams(BaseParams(s, ext), templates)), [])
  }

  /** writeData */
  function TemplatesRun(svc: Services, s: Settings, ext: string, selection: seq<string>): Run {
    var filtered := Filtered(selection, s.stagingPath);
    if filtered == [] then Declined
    else
      var exports := TemplateExports(svc, ext, filtered);
      if exports.failed then Run(exports.writes, Done(Threw))
      else
        var templates := TemplateParams(s, exports.titles, filtered);
        if templates.None? then Run(exports.writes, Done(Threw))
        else
          Run(exports.writes, Configure(DmsLocation + s.configurationName,
            PluginDocument([SinglePluginGroup(ApplicationTemplateManagerService, TemplatesPlugin(s, ext, templates.value))])))
  }

  /**
   * An empty selection declines; a run reaches its configuration exactly
   * when every export succeeds with readable metadata and every selected path splits into a
   * category and a template name; otherwise it throws after its copies.
   */
  lemma RunOutcomes(svc: Services, s: Settings, ext: string, selection: seq<string>)
    ensures var filtered := Filtered(selection, s.stagingPath);
      var run := TemplatesRun(svc, s, ext, selection);
      (filtered == [] <==> run == Declined) &&
      (filtered != [] ==> (run.finish.Configure? <==>
        (forall i :: 0 <= i < |filtered| ==> ExportReadable(svc, filtered[i])) &&
        (forall i :: 0 <= i < |filtered| ==> TemplateParam(s, TemplateExports(svc, ext, filtered).titles, filtered[i]).Some?))) &&
      (filtered != [] && !run.finish.Configure? ==> run.finish == Done(Threw))
  {
    var filtered := Filtered(selection, s.stagingPath);
    TitlesMerged(svc, ext, filtered);
    TemplateParamsExactly(s, TemplateExports(svc, ext, filtered).titles, filtered);
  }

  /**
   * The plugin's parameters are the two fixed ones and one per template
   * parameter; the last parameter of each name is the one kept, and the fixed
   * ones keep their values unless a template takes their name.
   */
  lemma TemplatesPluginParams(s: Settings, ext: string, templates: seq<Param>)
    ensures var params := TemplatesPlugin(s, ext, templates).initParams.value;
      params.Keys == {"portletName", "portlet.template.path"} + (set i | 0 <= i < |templates| :: templates[i].name) &&
      (forall i :: 0 <= i < |templates| && (forall j :: i < j < |templates| ==> templates[j].name != templates[i].name) ==>
        params[templates[i].name] == templates[i]) &&
      ((forall i :: 0 <= i < |templates| ==> templates[i].name != "portletName") ==>
        params["portletName"] == ValueParam("portletName", s.portletName)) &&
      ((forall i :: 0 <= i < |templates| ==> templates[i].name != "portlet.template.path") ==>
        params["portlet.template.path"] == ValueParam("portlet.template.path", Substitute(WarForm(s.templatesHome), ext)))
  {
    var params := AddParams(BaseParams(s, ext), templates);
    assert TemplatesPlugin(s, ext, templates).initParams.value == params;
    assert BaseParams(s, ext).Keys == {"portletName", "portlet.template.path"};
    forall i | 0 <= i < |templates| && (forall j :: i < j < |templates| ==> templates[j].name != templates[i].name)
      ensures params[templates[i].name] == templates[i]
    {
      AddParamsLastWins(BaseParams(s, ext), templates, i);
    }
  }

  /**
   * A configured run declares one "templates.plugin" on the application
   * template manager, holding one template parameter per selected path
   * (TemplateParamsExactly gives each, in order).
   */
  lemma PluginShape(svc: Services, s: Settings, ext: string, selection: seq<string>)
    requires TemplatesRun(svc, s, ext, selection).finish.Configure?
    ensures var filtered := Filtered(selection, s.stagingPath);
      var templates := TemplateParams(s, TemplateExports(svc, ext, filtered).titles, filtered).value;
      var p := TemplatesPlugin(s, ext, templates);
      TemplatesRun(svc, s, ext, selection).finish.document.externalComponentPlugins ==
        [ExternalComponentPlugins(Some(ApplicationTemplateManagerService), Some([p]))] &&
      p.name == "templates.plugin" && p.pluginType == PortletTemplatePlugin && p.setMethod == "addPlugin" &&
      |templates| == |filtered|
  {
    var filtered := Filtered(selection, s.stagingPath);
    TemplateParamsExactly(s, TemplateExports(svc, ext, filtered).titles, filtered);
  }

  /** The copy loop for one export. */
  method CopyTemplates(zos: ZipOutput, ext: string, es: seq<Entry>)
    requires zos.Valid()
    modifies zos
    ensures zos.Valid()
    ensures zos.entries == PutAll(old(zos.entries), TemplateCopies(ext, es))
  {
    for j := 0 to |es|
      invariant zos.Valid()
      invariant zos.entries == PutAll(old(zos.entries), TemplateCopies(ext, es[..j]))
    {
      assert es[..j + 1][..j] == es[..j];
      var e := es[j];
      assert TemplateCopies(ext, es[..j + 1]) == TemplateCopies(ext, es[..j]) + (if IsTemplateFile(e) then [TemplateCopy(ext, e)] else []);
      if e.name == "" || EndsWith(e.name, "/") || !EndsWith(e.name, ".gtmpl") {
        assert !IsTemplateFile(e);
        assert TemplateCopies(ext, es[..j + 1]) == TemplateCopies(ext, es[..j]);
        continue;
      }
      assert IsTemplateFile(e);
      PutAllSnoc(old(zos.entries), TemplateCopies(ext, es[..j]), TemplateCopy(ext, e));
      WriteStream(zos, DmsLocation + e.name, ext, e.content, false);
    }
    assert es[..|es|] == es;
  }

  /** The parameter loop: one object parameter per selected path, added in turn. */
  method AddTemplateParams(s: Settings, ext: string, titles: map<string, string>, paths: seq<string>)
    returns (params: Option<InitParams>)
    ensures params.None? <==> TemplateParams(s, titles, paths).None?
    ensures params.Some? ==> params.value == AddParams(BaseParams(s, ext), TemplateParams(s, titles, paths).value)
  {
    var result := BaseParams(s, ext);
    ghost var templates: seq<Param> := [];
    for k := 0 to |paths|
      invariant TemplateParams(s, titles, paths[..k]) == Some(templates)
      invariant result == AddParams(BaseParams(s, ext), templates)
    {
      assert paths[..k + 1][..k] == paths[..k];
      var p := TemplateParam(s, titles, paths[k]);
      if p.None? {
        ParamFailureSticks(s, titles, paths, k + 1);
        return None;
      }
      AddParamsSnoc(BaseParams(s, ext), templates, p.value);
      result := AddParam(result, p.value);
      templates := templates + [p.value];
    }
    assert paths[..|paths|] == paths;
    params := Some(result);
  }

  /**
   * The export loop over the selected paths: titles merged, template files
   * copied, temporary files cleared after each export; a failed export or
   * unreadable metadata ends it.
   */
  method ExportTemplates(h: Handler, zos: ZipOutput, svc: Services, ext: string, paths: seq<string>)
    returns (titles: map<string, string>, ok: bool)
    requires zos.Valid()
    modifies h, zos
    ensures zos.Valid()
    ensures ok == !TemplateExports(svc, ext, paths).failed
    ensures ok ==> titles == TemplateExports(svc, ext, paths).titles
    ensures zos.entries == PutAll(old(zos.entries), TemplateExports(svc, ext, paths).writes)
    ensures h.tempFiles == (if paths == [] then old(h.tempFiles) else [])
    ensures h.configurationPaths == old(h.configurationPaths)
  {
    titles := map[];
    ghost var writes: seq<Entry> := [];
    for k := 0 to |paths|
      invariant TemplateExports(svc, ext, paths[..k]) == Exports(writes, titles, false)
      invariant zos.Valid() && zos.entries == PutAll(old(zos.entries), writes)
      invariant h.tempFiles == (if k == 0 then old(h.tempFiles) else [])
      invariant h.configurationPaths == old(h.configurationPaths)
    {
      assert paths[..k + 1][..k] == paths[..k];
      var zip := Export(h, svc, paths[k], []);
      if zip.None? {
        ClearTempFiles(h);
        FailureSticks(svc, ext, paths, k + 1);
        return titles, false;
      }
      var metadata := ApplicationTemplatesMetadata(svc, zip.value);
      if metadata.Unreadable? {
        ClearTempFiles(h);
        FailureSticks(svc, ext, paths, k + 1);
        return titles, false;
      }
      ghost var next := Exports(writes + TemplateCopies(ext, zip.value), titles + TitlesOf(svc, zip.value), false);
      assert TemplateExports(svc, ext, paths[..k + 1]) == next;
      if metadata.Titles? {
        titles := titles + metadata.titles;
      } else {
        assert titles + TitlesOf(svc, zip.value) == titles;
      }
      PutAllAppend(old(zos.entries), writes, TemplateCopies(ext, zip.value));
      CopyTemplates(zos, ext, zip.value);
      writes := writes + TemplateCopies(ext, zip.value);
      ClearTempFiles(h);
    }
    assert paths[..|paths|] == paths;
    ok := true;
  }

  /** writeData */
  method WriteData(h: Handler, zos: ZipOutput, svc: Services, s: Settings, ext: string, selection: seq<string>)
    returns (outcome: Outcome)
    requires zos.Valid()
    modifies h, zos
    ensures zos.Valid()
    ensures zos.entries == Apply(old(zos.entries), ext, TemplatesRun(svc, s, ext, selection))
    ensures outcome == ResultOf(old(zos.entries), ext, TemplatesRun(svc, s, ext, selection))
    ensures h.tempFiles == (if Filtered(selection, s.stagingPath) == [] then old(h.tempFiles) else [])
    ensures h.configurationPaths == old(h.configurationPaths)
  {
    var filtered := FilterSelectedResources(selection, s.stagingPath);
    if filtered == [] {
      DeclinedLeavesArchive(zos.entries, ext);
      return Returned(false);
    }
    var titles, ok := ExportTemplates(h, zos, svc, ext, filtered);
    if !ok {
      return Threw;
    }
    var params := AddTemplateParams(s, ext, titles, filtered);
    if params.None? {
      return Threw;
    }
    var plugin := CreateComponentPlugin("templates.plugin", PortletTemplatePlugin, "addPlugin", params, []);
    var group := SinglePluginGroup(ApplicationTemplateManagerService, plugin);
    ghost var writes := TemplateExports(svc, ext, filtered).writes;
    ApplyAfterWrites(old(zos.entries), ext, writes, DmsLocation + s.configurationName, PluginDocument([group]));
    var ok2 := WritePlugins(zos, DmsLocation + s.configurationName, ext, [group]);
    outcome := Returned(ok2);
  }
}
