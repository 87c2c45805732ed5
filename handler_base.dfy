/**
 * What every configuration handler shares (AbstractConfigurationHandler):
 * the export call and its temporary-file registry, the selection filter,
 * and the builders of plugin records. Also the shape of one run of a
 * handler's writeData, which the orchestrator and every handler module use.
 */
module HandlerBase {
  import opened Wrappers
  import opened Strings
  import opened KernelXml
  import opened Archive
  import opened Paths
  import opened Platform
  import opened Utils

  /** What writeData did: returned a flag, or let a RuntimeException escape. */
  datatype Outcome = Returned(extracted: bool) | Threw

  /** The registered handlers; the site handler carries its site type. */
  datatype Kind =
    | NodeTypes
    | ApplicationRegistry
    | MopSite(siteType: string)
    | Scripts
    | Drives
    | JcrQuery
    | MetadataTemplates
    | NodeTypeTemplates
    | SiteContents
    | ClvTemplates
    | Taxonomy
    | SiteExplorerTemplates
    | SiteExplorerView
    | RestServices
    | Gadgets
    | ActionNodeTypes

  /**
   * A handler: its temporary export files, and the configuration paths it
   * reports (fixed for every handler but the drives handler, which resets
   * them on each run).
   */
  class Handler {
    const kind: Kind
    var tempFiles: seq<ExportRequest>
    var configurationPaths: seq<string>

    constructor(kind: Kind, configurationPaths: seq<string>)
      ensures this.kind == kind && tempFiles == [] && this.configurationPaths == configurationPaths
    {
      this.kind := kind;
      tempFiles := [];
      this.configurationPaths := configurationPaths;
    }
  }

  // -------------------------------------------------------------------------
  // Export and temporary files.

  /** The export request for `path`: the "filter" attribute is sent only when there are filters. */
  function Request(path: string, filters: seq<string>): (r: ExportRequest)
    ensures r.path == path
    ensures r.filter.Some? <==> filters != []
    ensures r.filter.Some? ==> r.filter.value == filters
  {
    if filters != [] then ExportRequest(path, Some(filters)) else ExportRequest(path, None)
  }

  /** A temporary file exists as soon as the controller has answered. */
  predicate CreatesTempFile(response: ExportResponse) {
    !response.ControllerFailure?
  }

  /** The exported archive, or None when getExportedFileFromOperation throws. */
  function ExportOf(svc: Services, path: string, filters: seq<string>): Option<seq<Entry>> {
    var response := svc.exportResource(Request(path, filters));
    if response.Exported? then Some(response.entries) else None
  }

  /** The temporary files after one export call. */
  function TempFilesAfter(tempFiles: seq<ExportRequest>, svc: Services, path: string, filters: seq<string>): (r: seq<ExportRequest>)
    ensures CreatesTempFile(svc.exportResource(Request(path, filters))) ==> r == tempFiles + [Request(path, filters)]
    ensures !CreatesTempFile(svc.exportResource(Request(path, filters))) ==> r == tempFiles
  {
    if CreatesTempFile(svc.exportResource(Request(path, filters))) then tempFiles + [Request(path, filters)] else tempFiles
  }

  /**
   * getExportedFileFromOperation: the temporary file is registered whenever
   * it was created, even when the call then fails.
   */
  method Export(h: Handler, svc: Services, path: string, filters: seq<string>) returns (zip: Option<seq<Entry>>)
    modifies h
    ensures zip == ExportOf(svc, path, filters)
    ensures h.tempFiles == TempFilesAfter(old(h.tempFiles), svc, path, filters)
    ensures h.configurationPaths == old(h.configurationPaths)
  {
    var request := if filters != [] then ExportRequest(path, Some(filters)) else ExportRequest(path, None);
    var response := svc.exportResource(request);
    if response.ControllerFailure? {
      return None;
    }
    h.tempFiles := h.tempFiles + [request];
    zip := if response.Exported? then Some(response.entries) else None;
  }

  /** clearTempFiles: the registry ends empty whatever happens to each deletion. */
  method ClearTempFiles(h: Handler)
    modifies h
    ensures h.tempFiles == []
    ensures h.configurationPaths == old(h.configurationPaths)
  {
    h.tempFiles := [];
  }

  /** ZipFile.getEntry: the entry of that name, if any. */
  function FindEntry(es: seq<Entry>, name: string): (r: Option<Entry>)
    ensures r.Some? <==> name in Names(es)
    ensures r.Some? ==> r.value in es && r.value.name == name
    decreases |es|
  {
    if es == [] then None
    else if es[0].name == name then Some(es[0])
    else
      assert Names(es) == {es[0].name} + Names(es[1..]) by {
        assert forall e :: e in es <==> e == es[0] || e in es[1..];
      }
      FindEntry(es[1..], name)
  }

  /**
   * What reading an export's application-template metadata gives: no
   * metadata entry, the titles it holds, or an unmarshalling exception (only
   * an IOException is caught, so this one escapes).
   */
  datatype TemplatesMetadata = NoMetadata | Titles(titles: map<string, string>) | Unreadable

  /** getApplicationTemplatesMetadata */
  function ApplicationTemplatesMetadata(svc: Services, es: seq<Entry>): (r: TemplatesMetadata)
    ensures r.NoMetadata? <==> "ecmadmin/templates/applications/metadata.xml" !in Names(es)
    ensures !r.NoMetadata? ==>
      var parsed := svc.parseTemplateTitles(FindEntry(es, "ecmadmin/templates/applications/metadata.xml").value.content);
      (r.Unreadable? <==> parsed.None?) && (r.Titles? ==> parsed == Some(r.titles))
  {
    var entry := FindEntry(es, "ecmadmin/templates/applications/metadata.xml");
    if entry.None? then NoMetadata
    else
      var titles := svc.parseTemplateTitles(entry.value.content);
      if titles.None? then Unreadable else Titles(titles.value)
  }

  // -------------------------------------------------------------------------
  // The selection filter.

  /** The selected paths that contain `parentPath` (a substring test, not a prefix test), in order. */
  function Filtered(selection: seq<string>, parentPath: string): seq<string>
    decreases |selection|
  {
    if selection == [] then []
    else
      var p := selection[|selection| - 1];
      Filtered(selection[..|selection| - 1], parentPath) + (if Contains(p, parentPath) then [p] else [])
  }

  /** The filter keeps exactly the selected paths containing the parent path, never more often than they occur. */
  lemma {:induction false} FilteredExactly(selection: seq<string>, parentPath: string)
    ensures forall p :: p in Filtered(selection, parentPath) <==> p in selection && Contains(p, parentPath)
    ensures |Filtered(selection, parentPath)| <= |selection|
    ensures multiset(Filtered(selection, parentPath)) <= multiset(selection)
    decreases |selection|
  {
    if selection != [] {
      var init := selection[..|selection| - 1];
      FilteredExactly(init, parentPath);
      assert selection == init + [selection[|selection| - 1]];
    }
  }

  /** Filtering twice by the same parent path is filtering once. */
  lemma {:induction false} FilterIdempotent(selection: seq<string>, parentPath: string)
    ensures Filtered(Filtered(selection, parentPath), parentPath) == Filtered(selection, parentPath)
    decreases |selection|
  {
    if selection != [] {
      var init := selection[..|selection| - 1];
      var p := selection[|selection| - 1];
      FilterIdempotent(init, parentPath);
      var f := Filtered(init, parentPath);
      if Contains(p, parentPath) {
        assert (f + [p])[..|f|] == f;
      } else {
        assert f + [] == f;
      }
    }
  }

  /** filterSelectedResources */
  method FilterSelectedResources(selection: seq<string>, parentPath: string) returns (filtered: seq<string>)
    ensures filtered == Filtered(selection, parentPath)
  {
    filtered := [];
    for k := 0 to |selection|
      invariant filtered == Filtered(selection[..k], parentPath)
    {
      assert selection[..k + 1][..k] == selection[..k];
      if Contains(selection[k], parentPath) {
        filtered := filtered + [selection[k]];
      }
    }
    assert selection[..|selection|] == selection;
  }

  /** `resourcePath.replace(prefix, "")` for every selected path, as the handlers build their export filters. */
  function StripAll(paths: seq<string>, prefix: string): (r: seq<string>)
    requires prefix != []
    ensures |r| == |paths|
    ensures forall i :: 0 <= i < |paths| ==> r[i] == ReplaceAll(paths[i], prefix, "")
  {
    seq(|paths|, i requires 0 <= i < |paths| => ReplaceAll(paths[i], prefix, ""))
  }

  /** The loop building export filters from the filtered selection. */
  method ExportFilters(paths: seq<string>, prefix: string) returns (filters: seq<string>)
    requires prefix != []
    ensures filters == StripAll(paths, prefix)
  {
    filters := [];
    for k := 0 to |paths|
      invariant filters == StripAll(paths[..k], prefix)
    {
      filters := filters + [ReplaceAll(paths[k], prefix, "")];
    }
    assert paths[..|paths|] == paths;
  }

  // -------------------------------------------------------------------------
  // Plugin records.

  function PluginsOf(group: ExternalComponentPlugins): seq<ComponentPlugin> {
    if group.componentPlugins.None? then [] else group.componentPlugins.value
  }

  /**
   * addComponentPlugin: the group targets `componentKey`, its plugin list is
   * created if absent, and the plugin is appended after the earlier ones.
   */
  function AddComponentPlugin(group: ExternalComponentPlugins, componentKey: ClassName, plugin: ComponentPlugin): (r: ExternalComponentPlugins)
    ensures r.targetComponent == Some(componentKey)
    ensures r.componentPlugins.Some?
    ensures PluginsOf(r) == PluginsOf(group) + [plugin]
  {
    ExternalComponentPlugins(Some(componentKey), Some(PluginsOf(group) + [plugin]))
  }

  /** The init params after adding each parameter in turn; a later parameter replaces an earlier one of the same name. */
  function AddParams(params: InitParams, parameters: seq<Param>): (r: InitParams)
    ensures forall n :: n in r <==> n in params || exists i :: 0 <= i < |parameters| && parameters[i].name == n
    ensures forall n :: n in params && (forall i :: 0 <= i < |parameters| ==> parameters[i].name != n) ==> r[n] == params[n]
    ensures parameters != [] ==> r[parameters[|parameters| - 1].name] == parameters[|parameters| - 1]
    decreases |parameters|
  {
    if parameters == [] then params
    else
      var init := parameters[..|parameters| - 1];
      var rest := AddParams(params, init);
      var last := parameters[|parameters| - 1];
      assert forall i :: 0 <= i < |init| ==> init[i] == parameters[i];
      var r := AddParam(rest, last);
      AddParamsStepKeys(params, parameters, rest, r);
      r
  }

  /** The names after adding the last parameter: those before, and the last one's. */
  lemma AddParamsStepKeys(params: InitParams, parameters: seq<Param>, rest: InitParams, r: InitParams)
    requires parameters != []
    requires forall n :: n in rest <==> n in params || exists i :: 0 <= i < |parameters| - 1 && parameters[i].name == n
    requires r == AddParam(rest, parameters[|parameters| - 1])
    ensures forall n :: n in r <==> n in params || exists i :: 0 <= i < |parameters| && parameters[i].name == n
  {
    var last := parameters[|parameters| - 1];
    forall n ensures n in r <==> n in params || exists i :: 0 <= i < |parameters| && parameters[i].name == n {
      if n == last.name {
        assert parameters[|parameters| - 1].name == n;
      } else if exists i :: 0 <= i < |parameters| && parameters[i].name == n {
        var i :| 0 <= i < |parameters| && parameters[i].name == n;
        assert i < |parameters| - 1;
      }
    }
  }

  /** One parameter added to empty init params. */
  lemma SingleParam(p: Param)
    ensures AddParams(map[], [p]) == map[p.name := p]
  {
    assert [p][..0] == [];
    var r := AddParams(map[], [p]);
    assert r.Keys == {p.name};
  }

  /** A parameter that no later parameter of the same name replaces is the one the init params keep. */
  lemma {:induction false} AddParamsLastWins(params: InitParams, parameters: seq<Param>, i: nat)
    requires i < |parameters|
    requires forall j :: i < j < |parameters| ==> parameters[j].name != parameters[i].name
    ensures parameters[i].name in AddParams(params, parameters)
    ensures AddParams(params, parameters)[parameters[i].name] == parameters[i]
    decreases |parameters|
  {
    if i < |parameters| - 1 {
      var init := parameters[..|parameters| - 1];
      assert init[i] == parameters[i];
      AddParamsLastWins(params, init, i);
    }
  }

  /** Adding parameters one call at a time is adding them all at once. */
  lemma AddParamsSnoc(params: InitParams, parameters: seq<Param>, p: Param)
    ensures AddParams(params, parameters + [p]) == AddParam(AddParams(params, parameters), p)
  {
    assert (parameters + [p])[..|parameters|] == parameters;
  }

  /** addParameter: the plugin gets init params if it has none; nothing but its init params changes. */
  function AddParameter(plugin: ComponentPlugin, parameters: seq<Param>): (r: ComponentPlugin)
    ensures r.name == plugin.name && r.pluginType == plugin.pluginType
    ensures r.setMethod == plugin.setMethod && r.priority == plugin.priority
    ensures r.initParams.Some?
    ensures plugin.initParams.None? && parameters == [] ==> r.initParams == Some(map[])
    ensures plugin.initParams.Some? && parameters == [] ==> r == plugin
    ensures r.initParams.value == AddParams(if plugin.initParams.None? then map[] else plugin.initParams.value, parameters)
  {
    var params := if plugin.initParams.None? then map[] else plugin.initParams.value;
    plugin.(initParams := Some(AddParams(params, parameters)))
  }

  /** Adding parameters to a plugin in two calls is adding them in one. */
  lemma AddParameterTwice(plugin: ComponentPlugin, parameters: seq<Param>, p: Param)
    ensures AddParameter(AddParameter(plugin, parameters), [p]) == AddParameter(plugin, parameters + [p])
  {
    var base := if plugin.initParams.None? then map[] else plugin.initParams.value;
    AddParamsSnoc(base, parameters, p);
    assert [p][..0] == [];
    assert AddParams(AddParams(base, parameters), [p]) == AddParam(AddParams(base, parameters), p);
  }

  /**
   * createComponentPlugin: name, set-method, type and init params from the
   * arguments (priority left at 0), then each extra parameter added.
   */
  function CreateComponentPlugin(name: string, pluginType: ClassName, methodName: string, params: Option<InitParams>, parameters: seq<Param>): (r: ComponentPlugin)
    ensures r.name == name && r.pluginType == pluginType && r.setMethod == methodName && r.priority == 0
    ensures r.initParams.Some?
    ensures params.Some? && parameters == [] ==> r.initParams == params
    ensures params.None? && parameters == [] ==> r.initParams == Some(map[])
  {
    AddParameter(ComponentPlugin(name, pluginType, methodName, 0, params), parameters)
  }

  /** A group holding one plugin for one component. */
  function SinglePluginGroup(componentKey: ClassName, plugin: ComponentPlugin): (r: ExternalComponentPlugins)
    ensures r == ExternalComponentPlugins(Some(componentKey), Some([plugin]))
  {
    assert PluginsOf(NoPlugins) + [plugin] == [plugin];
    AddComponentPlugin(NoPlugins, componentKey, plugin)
  }

  // -------------------------------------------------------------------------
  // One run of writeData.

  /**
   * How a run of writeData ends: returning or throwing without a
   * configuration file, or by writing `document` at `entryName` and
   * returning whether that write succeeded.
   */
  datatype Finish =
    | Done(outcome: Outcome)
    | Configure(entryName: string, document: Configuration)

  /** The entries a run writes before it finishes, and how it finishes. */
  datatype Run = Run(writes: seq<Entry>, finish: Finish)

  function PluginDocument(groups: seq<ExternalComponentPlugins>): Configuration {
    Configuration([], groups, [])
  }

  /** The output archive after a run. */
  function Apply(es: seq<Entry>, ext: string, run: Run): seq<Entry> {
    var written := PutAll(es, run.writes);
    match run.finish
    case Done(_) => written
    case Configure(n, d) => Put(written, ConfigurationEntry(n, ext, d))
  }

  /** What a run returns: a configuration write fails exactly when its name was already written. */
  function ResultOf(es: seq<Entry>, ext: string, run: Run): Outcome {
    match run.finish
    case Done(o) => o
    case Configure(n, _) => Returned(WrittenName(n, ext) !in Names(PutAll(es, run.writes)))
  }

  /** A run that only returns false, writing nothing. */
  const Declined := Run([], Done(Returned(false)))

  /** A declined run leaves the archive as it was and returns false. */
  lemma DeclinedLeavesArchive(es: seq<Entry>, ext: string)
    ensures Apply(es, ext, Declined) == es
    ensures ResultOf(es, ext, Declined) == Returned(false)
  {
  }

  /** A run that writes one entry and then its configuration. */
  lemma ApplyOneWrite(es: seq<Entry>, ext: string, w: Entry, n: string, d: Configuration)
    ensures Apply(es, ext, Run([w], Configure(n, d))) == Put(Put(es, w), ConfigurationEntry(n, ext, d))
    ensures ResultOf(es, ext, Run([w], Configure(n, d))) == Returned(WrittenName(n, ext) !in Names(Put(es, w)))
  {
    assert [w][..0] == [];
    assert PutAll(es, [w]) == Put(PutAll(es, []), w) == Put(es, w);
  }

  /** A run that writes its entries and then its configuration. */
  lemma ApplyAfterWrites(es: seq<Entry>, ext: string, writes: seq<Entry>, n: string, d: Configuration)
    ensures Apply(es, ext, Run(writes, Configure(n, d))) == Put(PutAll(es, writes), ConfigurationEntry(n, ext, d))
    ensures ResultOf(es, ext, Run(writes, Configure(n, d))) == Returned(WrittenName(n, ext) !in Names(PutAll(es, writes)))
  {
  }

  /** A run never removes entries, keeps names unique, and writes the configuration last. */
  lemma ApplyFacts(es: seq<Entry>, ext: string, run: Run)
    requires UniqueNames(es)
    ensures es <= Apply(es, ext, run)
    ensures UniqueNames(Apply(es, ext, run))
    ensures ResultOf(es, ext, run) == Returned(true) && run.finish.Configure? ==>
      Apply(es, ext, run) == PutAll(es, run.writes) + [ConfigurationEntry(run.finish.entryName, ext, run.finish.document)]
  {
    PutAllFacts(es, run.writes);
    if run.finish.Configure? {
      var w := PutAll(es, run.writes);
      var e := ConfigurationEntry(run.finish.entryName, ext, run.finish.document);
      if e.name !in Names(w) {
        assert UniqueNames(w + [e]) by {
          forall i | 0 <= i < |w| ensures w[i].name != e.name {
            assert w[i] in w;
          }
        }
      }
    }
  }
}
