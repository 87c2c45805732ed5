/**
 * The application-registry handler (ApplicationRegistryConfigurationHandler):
 * one "new.registry.category" plugin whose object parameters are the
 * exported category files, one per entry.
 */
module RegistryHandler {
  import opened Wrappers
  import opened Strings
  import opened KernelXml
  import opened Archive
  import opened Paths
  import opened Platform
  import opened Utils
  import opened HandlerBase

  /** Where the configuration goes, below WEB-INF. */
  const ConfigurationDir := "/conf/" + Placeholder + "/portal/" + "application-registry-configuration.xml"
  const ConfigurationLocation := "WEB-INF" + ConfigurationDir

  /** The one import this handler declares. */
  const ConfigurationPaths := [WarForm(ConfigurationLocation)]

  /** The object parameter an exported entry becomes, named after the entry without ".xml"; None when it does not unmarshal. */
  function EntryParam(svc: Services, e: Entry): Option<Param> {
    var obj := svc.parseObjectParameter(e.content);
    if obj.None? then None else Some(ObjectParam(ReplaceAll(e.name, ".xml", ""), obj.value))
  }

  /** The parameters one export contributes, in entry order. */
  function EntryParams(svc: Services, es: seq<Entry>): seq<Param>
    decreases |es|
  {
    if es == [] then []
    else
      var p := EntryParam(svc, es[|es| - 1]);
      EntryParams(svc, es[..|es| - 1]) + (if p.Some? then [p.value] else [])
  }

  /** An entry that fails to unmarshal is skipped alone: the parameters are exactly those of the entries that parse. */
  lemma {:induction false} EntryParamsExactly(svc: Services, es: seq<Entry>)
    ensures forall p :: p in EntryParams(svc, es) <==>
      exists e :: e in es && svc.parseObjectParameter(e.content).Some? &&
                  p == ObjectParam(ReplaceAll(e.name, ".xml", ""), svc.parseObjectParameter(e.content).value)
    ensures |EntryParams(svc, es)| <= |es|
    decreases |es|
  {
    if es != [] {
      var init := es[..|es| - 1];
      EntryParamsExactly(svc, init);
      assert es == init + [es[|es| - 1]];
    }
  }

  /** The parameters of all selected paths, in order; None once an export fails (the exception escapes). */
  function RegistryParams(svc: Services, paths: seq<string>): Option<seq<Param>>
    decreases |paths|
  {
    if paths == [] then Some([])
    else
      var before := RegistryParams(svc, paths[..|paths| - 1]);
      var zip := ExportOf(svc, paths[|paths| - 1], []);
      if before.None? || zip.None? then None else Some(before.value + EntryParams(svc, zip.value))
  }

  /** A failed export anywhere makes the whole run fail. */
  lemma {:induction false} FailureSticks(svc: Services, paths: seq<string>, k: nat)
    requires k <= |paths| && RegistryParams(svc, paths[..k]) == None
    ensures RegistryParams(svc, paths) == None
    decreases |paths| - k
  {
    if k < |paths| {
      assert paths[..k + 1][..k] == paths[..k];
      FailureSticks(svc, paths, k + 1);
    } else {
      assert paths[..k] == paths;
    }
  }

  /** The plugin holding the given parameters. */
  function RegistryPlugin(params: seq<Param>): ComponentPlugin {
    CreateComponentPlugin("new.registry.category", ApplicationCategoriesPlugins, "initListener", None, params)
  }

  /** writeData */
  function RegistryRun(svc: Services, ext: string, selection: seq<string>): Run {
    var filtered := Filtered(selection, RegistryPath);
    if filtered == [] then Declined
    else
      var params := RegistryParams(svc, filtered);
      if params.None? then Run([], Done(Threw))
      else Run([], Configure(ConfigurationLocation, PluginDocument([SinglePluginGroup(ApplicationRegistryService, RegistryPlugin(params.value))])))
  }

  /**
   * A run that gets through its exports writes nothing but one configuration
   * with exactly one group, on the registry service, holding exactly one
   * "new.registry.category" plugin.
   */
  lemma OnePlugin(svc: Services, ext: string, selection: seq<string>)
    requires RegistryRun(svc, ext, selection).finish.Configure?
    ensures var run := RegistryRun(svc, ext, selection);
      run.writes == [] && run.finish.entryName == ConfigurationLocation &&
      |run.finish.document.externalComponentPlugins| == 1 &&
      run.finish.document.externalComponentPlugins[0].targetComponent == Some(ApplicationRegistryService) &&
      |PluginsOf(run.finish.document.externalComponentPlugins[0])| == 1 &&
      PluginsOf(run.finish.document.externalComponentPlugins[0])[0].name == "new.registry.category"
  {
  }

  /** The declared import, once substituted, is the war: form of the configuration entry written. */
  lemma ConfigurationImported(ext: string)
    ensures Imports(Substitute(ConfigurationPaths[0], ext), WrittenName(ConfigurationLocation, ext))
  {
    assert 'W' !in "/conf/" && 'W' !in Placeholder && 'W' !in "/portal/" && 'W' !in "application-registry-configuration.xml";
    ImportNamesFile(ConfigurationDir, ext);
  }

  /** A run that reaches its configuration writes it alone. */
  lemma ApplyConfigurationOnly(es: seq<Entry>, ext: string, n: string, d: Configuration)
    ensures Apply(es, ext, Run([], Configure(n, d))) == Put(es, ConfigurationEntry(n, ext, d))
    ensures ResultOf(es, ext, Run([], Configure(n, d))) == Returned(WrittenName(n, ext) !in Names(es))
  {
  }

  /** Adding one parameter to the plugin is building the plugin with that parameter last. */
  lemma RegistryPluginSnoc(params: seq<Param>, p: Param)
    ensures AddParameter(RegistryPlugin(params), [p]) == RegistryPlugin(params + [p])
  {
    AddParameterTwice(ComponentPlugin("new.registry.category", ApplicationCategoriesPlugins, "initListener", 0, None), params, p);
  }

  /** The entry loop for one export: each entry that unmarshals is added to the plugin. */
  method AddEntries(svc: Services, es: seq<Entry>, params0: seq<Param>, plugin0: ComponentPlugin)
    returns (params: seq<Param>, plugin: ComponentPlugin)
    requires plugin0 == RegistryPlugin(params0)
    ensures params == params0 + EntryParams(svc, es)
    ensures plugin == RegistryPlugin(params)
  {
    hide RegistryPlugin, AddParameter, EntryParam;
    params, plugin := params0, plugin0;
    for j := 0 to |es|
      invariant params == params0 + EntryParams(svc, es[..j])
      invariant plugin == RegistryPlugin(params)
    {
      assert es[..j + 1][..j] == es[..j];
      var p := EntryParam(svc, es[j]);
      if p.Some? {
        RegistryPluginSnoc(params, p.value);
        plugin := AddParameter(plugin, [p.value]);
        params := params + [p.value];
        assert params0 + EntryParams(svc, es[..j + 1]) == params;
      }
    }
    assert es[..|es|] == es;
  }

  /** The export loop: the parameters of every selected path, and the plugin holding them; None once an export fails. */
  method CollectParams(h: Handler, svc: Services, filtered: seq<string>) returns (params: Option<seq<Param>>, plugin: ComponentPlugin)
    requires filtered != []
    modifies h
    ensures params == RegistryParams(svc, filtered)
    ensures params.Some? ==> plugin == RegistryPlugin(params.value)
    ensures h.tempFiles == [] && h.configurationPaths == old(h.configurationPaths)
  {
    var collected: seq<Param> := [];
    plugin := RegistryPlugin([]);
    for k := 0 to |filtered|
      invariant RegistryParams(svc, filtered[..k]) == Some(collected)
      invariant plugin == RegistryPlugin(collected)
      invariant h.tempFiles == (if k == 0 then old(h.tempFiles) else [])
      invariant h.configurationPaths == old(h.configurationPaths)
    {
      assert filtered[..k + 1][..k] == filtered[..k];
      var zip := Export(h, svc, filtered[k], []);
      ClearTempFiles(h);
      if zip.None? {
        FailureSticks(svc, filtered, k + 1);
        return None, plugin;
      }
      collected, plugin := AddEntries(svc, zip.value, collected, plugin);
    }
    assert filtered[..|filtered|] == filtered;
    params := Some(collected);
  }

  /** writeData */
  method WriteData(h: Handler, zos: ZipOutput, svc: Services, ext: string, selection: seq<string>) returns (outcome: Outcome)
    requires zos.Valid()
    modifies h, zos
    ensures zos.Valid()
    ensures zos.entries == Apply(old(zos.entries), ext, RegistryRun(svc, ext, selection))
    ensures outcome == ResultOf(old(zos.entries), ext, RegistryRun(svc, ext, selection))
    ensures h.tempFiles == (if Filtered(selection, RegistryPath) == [] then old(h.tempFiles) else [])
    ensures h.configurationPaths == old(h.configurationPaths)
  {
    var filtered := FilterSelectedResources(selection, RegistryPath);
    if filtered == [] {
      DeclinedLeavesArchive(zos.entries, ext);
      return Returned(false);
    }
    var params, plugin := CollectParams(h, svc, filtered);
    if params.None? {
      return Threw;
    }
    var group := SinglePluginGroup(ApplicationRegistryService, plugin);
    assert RegistryRun(svc, ext, selection) == Run([], Configure(ConfigurationLocation, PluginDocument([group])));
    ApplyConfigurationOnly(zos.entries, ext, ConfigurationLocation, PluginDocument([group]));
    var ok := WritePlugins(zos, ConfigurationLocation, ext, [group]);
    outcome := Returned(ok);
  }
}
