/**
 * The site-explorer view handler (SiteExplorerViewConfigurationHandler):
 * exports the selected views, reads the init parameters of the first view
 * file of the export, and declares them, with two fixed parameters, in one
 * plugin of the manage-view service. Every failure escapes the handler.
 */
module ViewHandler {
  import opened Wrappers
  import opened Strings
  import opened KernelXml
  import opened Archive
  import opened Paths
  import opened Platform
  import opened Utils
  import opened HandlerBase

  const ViewDir := "view"

  /** VIEW_CONFIGURATION_LOCATION */
  const ViewLocation := DmsLocation + ViewDir

  /** VIEW_CONFIGURATION_NAME */
  const ViewConfigurationName := "view-" + "configuration.xml"

  /** VIEW_CONFIGURATION_FULL_PATH */
  const ViewFullPath := ViewLocation + "/" + ViewConfigurationName

  /** The one import this handler declares: the whole path in war: form. */
  const ConfigurationPaths := [WarForm(ViewFullPath)]

  /** The export filter prefix: each selected path loses it to become a view name. */
  const FilterPrefix := EcmViewConfigurationPath + "/"

  /** The constructor. */
  method NewViewHandler() returns (h: Handler)
    ensures fresh(h)
    ensures h.kind == SiteExplorerView && h.tempFiles == [] && h.configurationPaths == ConfigurationPaths
  {
    h := new Handler(SiteExplorerView, ConfigurationPaths);
  }

  /** `trim().isEmpty()`: nothing but characters up to the space. */
  predicate Blank(s: string) {
    forall i :: 0 <= i < |s| ==> s[i] <= ' '
  }

  /** An entry the loop stops at: under "ecmadmin/view/", not a directory, not blank, an XML file. */
  predicate IsViewFile(e: Entry) {
    StartsWith(e.name, "ecmadmin/view/") && !(IsDirectory(e) || Blank(e.name) || !EndsWith(e.name, ".xml"))
  }

  /** The blank test never decides: a name under "ecmadmin/view/" is not blank. */
  lemma ViewFileByName(e: Entry)
    ensures IsViewFile(e) <==> StartsWith(e.name, "ecmadmin/view/") && !IsDirectory(e) && EndsWith(e.name, ".xml")
  {
    if StartsWith(e.name, "ecmadmin/view/") {
      assert e.name[0] == 'e';
    }
  }

  /** `es[i]` is a view file and no entry before it is one. */
  predicate FirstViewFileAt(es: seq<Entry>, i: nat)
    requires i < |es|
  {
    IsViewFile(es[i]) && forall j :: 0 <= j < i ==> !IsViewFile(es[j])
  }

  /** The entry the loop reads: the first view file of the export, if any. */
  function FirstViewFile(es: seq<Entry>): (r: Option<Entry>)
    ensures r.None? <==> forall i :: 0 <= i < |es| ==> !IsViewFile(es[i])
    ensures r.Some? ==> exists i :: 0 <= i < |es| && es[i] == r.value && FirstViewFileAt(es, i)
    decreases |es|
  {
    if es == [] then None
    else if IsViewFile(es[0]) then Some(es[0])
    else
      var r := FirstViewFile(es[1..]);
      if r.Some? then
        var i :| 0 <= i < |es[1..]| && es[1..][i] == r.value && FirstViewFileAt(es[1..], i);
        assert es[i + 1] == r.value && FirstViewFileAt(es, i + 1);
        r
      else r
  }

  /** The parsed parameters, with automatic creation and the predefined views' location in war: form, name substituted. */
  function ViewParams(ext: string, parsed: InitParams): InitParams {
    var params := AddParam(parsed, ValueParam("autoCreateInNewRepository", "true"));
    AddParam(params, ValueParam("predefinedViewsLocation", Substitute(WarForm(ViewLocation), ext)))
  }

  function ViewPlugin(ext: string, parsed: InitParams): ComponentPlugin {
    CreateComponentPlugin("manage.view.plugin", ManageViewPlugin, "setManageViewPlugin", Some(ViewParams(ext, parsed)), [])
  }

  /**
   * writeData: a failed export, an export without a view file (the null
   * parameters) and a view file that does not unmarshal all escape.
   */
  function ViewRun(svc: Services, ext: string, selection: seq<string>): Run {
    var filtered := Filtered(selection, EcmViewConfigurationPath);
    if filtered == [] then Declined
    else
      var zip := ExportOf(svc, EcmViewConfigurationPath, StripAll(filtered, FilterPrefix));
      if zip.None? then Run([], Done(Threw))
      else
        var entry := FirstViewFile(zip.value);
        if entry.None? then Run([], Done(Threw))
        else
          var parsed := svc.parseInitParams(entry.value.content);
          if parsed.None? then Run([], Done(Threw))
          else Run([], Configure(ViewFullPath, PluginDocument([SinglePluginGroup(ManageViewService, ViewPlugin(ext, parsed.value))])))
  }

  /** The export succeeded and holds a view file whose parameters unmarshal. */
  predicate ViewParsed(svc: Services, zip: Option<seq<Entry>>) {
    zip.Some? && FirstViewFile(zip.value).Some? && svc.parseInitParams(FirstViewFile(zip.value).value.content).Some?
  }

  /**
   * A selection without views declines; otherwise the run writes nothing but
   * its configuration, which it reaches exactly when the export succeeds and
   * holds a view file whose parameters unmarshal; any other run escapes.
   */
  lemma RunOutcomes(svc: Services, ext: string, selection: seq<string>)
    ensures var filtered := Filtered(selection, EcmViewConfigurationPath);
      var zip := ExportOf(svc, EcmViewConfigurationPath, StripAll(filtered, FilterPrefix));
      var run := ViewRun(svc, ext, selection);
      (filtered == [] <==> run == Declined) &&
      (filtered != [] ==> run.writes == []) &&
      (filtered != [] ==> (run.finish.Configure? <==> ViewParsed(svc, zip))) &&
      (filtered != [] && !run.finish.Configure? ==> run.finish == Done(Threw))
  {
  }

  /**
   * The declared parameters are the parsed ones, with automatic creation and
   * the predefined views' location added over any parsed parameter of the
   * same name; nothing else is added.
   */
  lemma ViewParamsKeepParsed(ext: string, parsed: InitParams)
    ensures ViewParams(ext, parsed).Keys == parsed.Keys + {"autoCreateInNewRepository", "predefinedViewsLocation"}
    ensures ViewParams(ext, parsed)["autoCreateInNewRepository"] == ValueParam("autoCreateInNewRepository", "true")
    ensures ViewParams(ext, parsed)["predefinedViewsLocation"] ==
      ValueParam("predefinedViewsLocation", Substitute(WarForm(ViewLocation), ext))
    ensures forall k :: k in parsed && k != "autoCreateInNewRepository" && k != "predefinedViewsLocation" ==>
      ViewParams(ext, parsed)[k] == parsed[k]
  {
  }

  /** The predefined views' location in war: form. */
  lemma ViewLocationWarForm()
    ensures WarForm(ViewLocation) == "war:" + DmsDir + ViewDir
  {
    assert 'W' !in "/conf/" && 'W' !in Placeholder && 'W' !in "/dms/" && 'W' !in ViewDir;
    MissingCharNotContained(ViewDir, "WEB-INF", 'W');
    WarFormAppend(DmsDir, ViewDir);
    DmsWarForm();
  }

  /** The "predefinedViewsLocation" parameter: the views' directory in war: form, name substituted. */
  lemma PredefinedViewsLocation(ext: string)
    ensures Substitute(WarForm(ViewLocation), ext) == "war:/conf/" + ext + "/dms/view"
  {
    ViewLocationWarForm();
    assert "war:" + DmsDir + ViewDir == "war:/conf/" + (Placeholder + "/dms/view") by {
      assert "war:/conf/" == "war:" + "/conf/";
      assert DmsDir == "/conf/" + Placeholder + "/dms/";
    }
    assert 'u' !in "/dms/view";
    ConfImportSubstituted("/dms/view", ext);
  }

  /** The declared import, once substituted, is the war: form of the configuration entry the run writes. */
  lemma ConfigurationImported(ext: string)
    ensures Imports(Substitute(ConfigurationPaths[0], ext), WrittenName(ViewFullPath, ext))
  {
    var dir := DmsDir + (ViewDir + ("/" + ViewConfigurationName));
    assert 'W' !in "/conf/" && 'W' !in Placeholder && 'W' !in "/dms/" && 'W' !in ViewDir;
    assert 'W' !in "/" && 'W' !in ViewConfigurationName;
    assert ViewFullPath == "WEB-INF" + dir;
    ImportNamesFile(dir, ext);
  }

  /** The entry loop: the first view file, if any. */
  method FindViewFile(es: seq<Entry>) returns (entry: Option<Entry>)
    ensures entry == FirstViewFile(es)
  {
    var j := 0;
    while j < |es|
      invariant 0 <= j <= |es|
      invariant FirstViewFile(es) == FirstViewFile(es[j..])
    {
      assert es[j..][1..] == es[j + 1..];
      var e := es[j];
      if StartsWith(e.name, "ecmadmin/view/") && !(IsDirectory(e) || Blank(e.name) || !EndsWith(e.name, ".xml")) {
        return Some(e);
      }
      j := j + 1;
    }
    return None;
  }

  /** writeData */
  method WriteData(h: Handler, zos: ZipOutput, svc: Services, ext: string, selection: seq<string>) returns (outcome: Outcome)
    requires zos.Valid()
    modifies h, zos
    ensures zos.Valid()
    ensures zos.entries == Apply(old(zos.entries), ext, ViewRun(svc, ext, selection))
    ensures outcome == ResultOf(old(zos.entries), ext, ViewRun(svc, ext, selection))
    ensures h.tempFiles == (if Filtered(selection, EcmViewConfigurationPath) == [] then old(h.tempFiles) else [])
    ensures h.configurationPaths == old(h.configurationPaths)
  {
    var filtered := FilterSelectedResources(selection, EcmViewConfigurationPath);
    if filtered == [] {
      DeclinedLeavesArchive(zos.entries, ext);
      return Returned(false);
    }
    var filters := ExportFilters(filtered, FilterPrefix);
    var zip := Export(h, svc, EcmViewConfigurationPath, filters);
    if zip.None? {
      ClearTempFiles(h);
      return Threw;
    }
    var entry := FindViewFile(zip.value);
    if entry.None? {
      ClearTempFiles(h);
      return Threw;
    }
    var parsed := svc.parseInitParams(entry.value.content);
    if parsed.None? {
      ClearTempFiles(h);
      return Threw;
    }
    var group := SinglePluginGroup(ManageViewService, ViewPlugin(ext, parsed.value));
    ApplyAfterWrites(old(zos.entries), ext, [], ViewFullPath, PluginDocument([group]));
    var written := WritePlugins(zos, ViewFullPath, ext, [group]);
    ClearTempFiles(h);
    outcome := Returned(written);
  }
}
