/**
 * The IDE REST-services handler (RESTServicesFromIDEConfigurationHandler):
 * each selected "workspace::/script/path" key has its Groovy script copied
 * under the REST scripts location and becomes one plugin of the Groovy REST
 * loader, which loads the copy at start-up.
 */
module RestHandler {
  import opened Wrappers
  import opened Sequences
  import opened Strings
  import opened KernelXml
  import opened Archive
  import opened Paths
  import opened Platform
  import opened Utils
  import opened HandlerBase

  /** CONFIGURATION_LOCATION and SCRIPTS_CONFIGURATION_LOCATION, and the former's part below WEB-INF. */
  const RestDir := "/conf/" + Placeholder + "/rest"
  const RestLocation := "WEB-INF" + RestDir
  const ScriptsLocation := RestLocation + "/scripts"
  const RestConfigurationName := "rest-groovy-configuration.xml"

  /** The one import this handler declares. */
  const ConfigurationPaths := [WarForm(RestLocation) + "/" + RestConfigurationName]

  /**
   * A selected key, with every IDE_REST_PATH removed and split on "::",
   * must have exactly two parts: the workspace, and the script path without
   * its first character. Any other key is skipped.
   */
  function ParseKey(selected: string): (r: Option<(string, string)>)
    ensures r.Some? <==> |Split(ReplaceAll(selected, IdeRestPath, ""), "::")| == 2
    ensures r.Some? ==> var parts := Split(ReplaceAll(selected, IdeRestPath, ""), "::");
      r.value.0 == parts[0] && parts[1] != [] && r.value.1 == parts[1][1..]
  {
    var parts := Split(ReplaceAll(selected, IdeRestPath, ""), "::");
    if |parts| != 2 then None
    else
      SplitLastNotEmpty(ReplaceAll(selected, IdeRestPath, ""), "::");
      Some((parts[0], parts[1][1..]))
  }

  /** Split drops trailing empty pieces, so a split into several pieces never ends with an empty one. */
  lemma SplitLastNotEmpty(s: string, sep: string)
    requires sep != [] && |Split(s, sep)| >= 2
    ensures Split(s, sep)[|Split(s, sep)| - 1] != []
  {
  }

  /** The script's file name: the text after its last '/'. */
  function ScriptName(scriptPath: string): (r: string)
    ensures '/' !in r
  {
    var i := LastIndexOf(scriptPath, '/');
    scriptPath[i + 1..]
  }

  /** The script's parent path: the text up to and including its last '/'. */
  function ScriptParent(scriptPath: string): (r: string)
    ensures r == [] || r[|r| - 1] == '/'
  {
    var i := LastIndexOf(scriptPath, '/');
    scriptPath[..i + 1]
  }

  /** The parent path and the name make up the script path again. */
  lemma ScriptPathParts(scriptPath: string)
    ensures ScriptParent(scriptPath) + ScriptName(scriptPath) == scriptPath
    ensures '/' !in scriptPath ==> ScriptParent(scriptPath) == [] && ScriptName(scriptPath) == scriptPath
  {
    var i := LastIndexOf(scriptPath, '/');
    if i >= 0 {
      assert scriptPath[i] in scriptPath;
    }
    assert scriptPath[..i + 1] + scriptPath[i + 1..] == scriptPath;
  }

  /** Where a script is copied in the archive, before the extension name is substituted. */
  function ScriptLocation(name: string): string {
    ScriptsLocation + "/" + name
  }

  /** The copy of a script, bytes unchanged. */
  function ScriptCopy(ext: string, scriptPath: string, content: Content): Entry {
    Entry(StreamEntryName(ScriptLocation(ScriptName(scriptPath)), ext), content)
  }

  /** The loader plugin for one script. */
  function ScriptPluginFor(workspace: string, scriptPath: string): ComponentPlugin {
    var name := ScriptName(scriptPath);
    var properties := map["autoload" := "true", "path" := WarForm(ScriptLocation(name))];
    var params := AddParam(map[], ValueParam("node", "/" + ScriptParent(scriptPath)));
    var params := AddParam(params, ValueParam("workspace", workspace));
    var params := AddParam(params, PropertiesParam(name, properties));
    CreateComponentPlugin(name, GroovyScript2RestLoaderPlugin, "addPlugin", Some(params), [])
  }

  /** The loader's plugin group: created empty, and targeted at the loader as soon as a plugin is added. */
  function LoaderGroup(plugins: seq<ComponentPlugin>): ExternalComponentPlugins {
    if plugins == [] then NoPlugins else ExternalComponentPlugins(Some(GroovyScript2RestLoader), Some(plugins))
  }

  /** What the key loop has produced: the copies written, the plugins, and whether a script could not be read. */
  datatype Progress = Progress(writes: seq<Entry>, plugins: seq<ComponentPlugin>, failed: bool)

  /**
   * One pass of the key loop: a key that does not parse is skipped, a script
   * that cannot be read ends the loop with an exception, and otherwise the
   * script is copied and its plugin made.
   */
  function KeyStep(svc: Services, ext: string, before: Progress, selected: string): Progress {
    var key := ParseKey(selected);
    if before.failed || key.None? then before
    else
      var content := svc.scriptContent(key.value.0, key.value.1);
      if content.None? then before.(failed := true)
      else Progress(before.writes + [ScriptCopy(ext, key.value.1, content.value)],
                    before.plugins + [ScriptPluginFor(key.value.0, key.value.1)], false)
  }

  /** The key loop over the selected keys, in order. */
  function Steps(svc: Services, ext: string, keys: seq<string>): Progress
    decreases |keys|
  {
    if keys == [] then Progress([], [], false)
    else KeyStep(svc, ext, Steps(svc, ext, keys[..|keys| - 1]), keys[|keys| - 1])
  }

  /** writeData: every exception is caught and answered false, keeping the copies already written. */
  function RestRun(svc: Services, ext: string, selection: seq<string>): Run {
    var filtered := Filtered(selection, IdeRestPath);
    if filtered == [] then Declined
    else
      var progress := Steps(svc, ext, filtered);
      if progress.failed then Run(progress.writes, Done(Returned(false)))
      else Run(progress.writes, Configure(RestLocation + "/" + RestConfigurationName, PluginDocument([LoaderGroup(progress.plugins)])))
  }

  /**
   * A script's copy and its plugin agree: the copy is written at the
   * location below the scripts directory named by the plugin, and the
   * plugin's properties load that location, in war: form, automatically.
   */
  predicate LoadsCopy(ext: string, copy: Entry, plugin: ComponentPlugin) {
    copy.name == StreamEntryName(ScriptLocation(plugin.name), ext) &&
    plugin.initParams.Some? && plugin.name in plugin.initParams.value &&
    plugin.initParams.value[plugin.name] ==
      PropertiesParam(plugin.name, map["autoload" := "true", "path" := WarForm(ScriptLocation(plugin.name))])
  }

  /**
   * The plugin for a script is named after the script, has the loader
   * plugin type and set-method "addPlugin", records the workspace and "/" +
   * the parent path, and loads the script's copy.
   */
  lemma ScriptPluginShape(ext: string, workspace: string, scriptPath: string, content: Content)
    ensures ScriptPluginFor(workspace, scriptPath).name == ScriptName(scriptPath)
    ensures ScriptPluginFor(workspace, scriptPath).pluginType == GroovyScript2RestLoaderPlugin
    ensures ScriptPluginFor(workspace, scriptPath).setMethod == "addPlugin"
    ensures ScriptName(scriptPath) != "node" && ScriptName(scriptPath) != "workspace" ==>
      ScriptPluginFor(workspace, scriptPath).initParams == Some(map[
        "node" := ValueParam("node", "/" + ScriptParent(scriptPath)),
        "workspace" := ValueParam("workspace", workspace),
        ScriptName(scriptPath) := PropertiesParam(ScriptName(scriptPath),
          map["autoload" := "true", "path" := WarForm(ScriptLocation(ScriptName(scriptPath)))])])
    ensures LoadsCopy(ext, ScriptCopy(ext, scriptPath, content), ScriptPluginFor(workspace, scriptPath))
  {
    var name := ScriptName(scriptPath);
    var node := ValueParam("node", "/" + ScriptParent(scriptPath));
    var ws := ValueParam("workspace", workspace);
    var props := PropertiesParam(name, map["autoload" := "true", "path" := WarForm(ScriptLocation(name))]);
    var params := map[][node.name := node][ws.name := ws][props.name := props];
    var p := ScriptPluginFor(workspace, scriptPath);
    assert p.initParams == Some(params);
    assert p.name == name;
    assert params[name] == props;
  }

  /** The plugin is the one made from some selected key that parses. */
  predicate FromSelectedKey(keys: seq<string>, plugin: ComponentPlugin) {
    exists k :: k in keys && ParseKey(k).Some? && plugin == ScriptPluginFor(ParseKey(k).value.0, ParseKey(k).value.1)
  }

  /** The copies written and the plugins made pair up, in order. */
  lemma {:induction false} PluginsMatchCopies(svc: Services, ext: string, keys: seq<string>)
    ensures var p := Steps(svc, ext, keys);
      |p.writes| == |p.plugins| && forall i :: 0 <= i < |p.plugins| ==> LoadsCopy(ext, p.writes[i], p.plugins[i])
    decreases |keys|
  {
    hide KeyStep, LoadsCopy;
    if keys != [] {
      PluginsMatchCopies(svc, ext, keys[..|keys| - 1]);
      StepKeepsPairs(svc, ext, Steps(svc, ext, keys[..|keys| - 1]), keys[|keys| - 1]);
    }
  }

  /** One pass of the key loop keeps the copies and the plugins paired. */
  lemma StepKeepsPairs(svc: Services, ext: string, before: Progress, selected: string)
    requires |before.writes| == |before.plugins|
    requires forall i :: 0 <= i < |before.plugins| ==> LoadsCopy(ext, before.writes[i], before.plugins[i])
    ensures var after := KeyStep(svc, ext, before, selected);
      |after.writes| == |after.plugins| && forall i :: 0 <= i < |after.plugins| ==> LoadsCopy(ext, after.writes[i], after.plugins[i])
  {
    // Each pair's agreement comes from the shape of the plugin alone.
    hide LoadsCopy, ScriptPluginFor, ScriptCopy, ParseKey;
    var key := ParseKey(selected);
    if !before.failed && key.Some? {
      var content := svc.scriptContent(key.value.0, key.value.1);
      if content.Some? {
        ScriptPluginShape(ext, key.value.0, key.value.1, content.value);
        var after := KeyStep(svc, ext, before, selected);
        assert after.writes == before.writes + [ScriptCopy(ext, key.value.1, content.value)];
        assert after.plugins == before.plugins + [ScriptPluginFor(key.value.0, key.value.1)];
        forall i | 0 <= i < |after.plugins|
          ensures LoadsCopy(ext, after.writes[i], after.plugins[i])
        {
          if i < |before.plugins| {
            assert after.writes[i] == before.writes[i] && after.plugins[i] == before.plugins[i];
          }
        }
      }
    }
  }

  /** Every plugin is made from a selected key that parses. */
  lemma {:induction false} PluginsFromKeys(svc: Services, ext: string, keys: seq<string>)
    ensures forall plugin :: plugin in Steps(svc, ext, keys).plugins ==> FromSelectedKey(keys, plugin)
    decreases |keys|
  {
    hide ScriptCopy, ScriptPluginFor, ParseKey;
    if keys != [] {
      var init := keys[..|keys| - 1];
      var last := keys[|keys| - 1];
      PluginsFromKeys(svc, ext, init);
      var before := Steps(svc, ext, init);
      var after := Steps(svc, ext, keys);
      forall plugin | plugin in after.plugins ensures FromSelectedKey(keys, plugin) {
        if plugin in before.plugins {
          var k :| k in init && ParseKey(k).Some? && plugin == ScriptPluginFor(ParseKey(k).value.0, ParseKey(k).value.1);
          assert k in keys;
        } else {
          assert last in keys;
        }
      }
    }
  }

  /** One more key keeps the earlier plugins and, unless the loop fails, adds the plugin of the new key when it parses. */
  lemma StepGrows(svc: Services, ext: string, keys: seq<string>)
    requires keys != [] && !Steps(svc, ext, keys).failed
    ensures var before := Steps(svc, ext, keys[..|keys| - 1]);
      !before.failed && before.plugins <= Steps(svc, ext, keys).plugins
    ensures HasPluginFor(Steps(svc, ext, keys).plugins, keys[|keys| - 1])
  {
  }

  /** A key that parses has its plugin among these. */
  predicate HasPluginFor(plugins: seq<ComponentPlugin>, key: string) {
    ParseKey(key).Some? ==> ScriptPluginFor(ParseKey(key).value.0, ParseKey(key).value.1) in plugins
  }

  /** When no script fails to load, every selected key that parses has its plugin. */
  lemma {:induction false} EveryParsedKeyLoaded(svc: Services, ext: string, keys: seq<string>)
    requires !Steps(svc, ext, keys).failed
    ensures forall k :: k in keys ==> HasPluginFor(Steps(svc, ext, keys).plugins, k)
    decreases |keys|
  {
    if keys != [] {
      var init := keys[..|keys| - 1];
      StepGrows(svc, ext, keys);
      EveryParsedKeyLoaded(svc, ext, init);
      var before := Steps(svc, ext, init).plugins;
      var after := Steps(svc, ext, keys).plugins;
      forall k | k in keys ensures HasPluginFor(after, k) {
        InitOrLast(keys, k);
        if k in init {
          assert HasPluginFor(before, k);
        }
      }
    }
  }

  /** Once reading a script has failed, the loop's result is settled. */
  lemma {:induction false} FailureSticks(svc: Services, ext: string, keys: seq<string>, k: nat)
    requires k <= |keys| && Steps(svc, ext, keys[..k]).failed
    ensures Steps(svc, ext, keys) == Steps(svc, ext, keys[..k])
    decreases |keys| - k
  {
    if k < |keys| {
      assert keys[..k + 1][..k] == keys[..k];
      FailureSticks(svc, ext, keys, k + 1);
    } else {
      assert keys[..k] == keys;
    }
  }

  /**
   * A key built as the listing builds it, IDE_REST_PATH + workspace + "::" +
   * script path, parses back into the workspace and the script path without
   * its leading '/', provided the workspace holds no ':', the script path no
   * "::", and the key no further IDE_REST_PATH.
   */
  lemma KeyRoundTrip(workspace: string, scriptPath: string)
    requires ':' !in workspace && "/" <= scriptPath && !Contains(scriptPath, "::")
    requires !Contains(workspace + "::" + scriptPath, IdeRestPath)
    ensures ParseKey(IdeRestPath + (workspace + "::" + scriptPath)) == Some((workspace, scriptPath[1..]))
  {
    var key := workspace + "::" + scriptPath;
    ReplaceLeading(IdeRestPath, key, "");
    ReplaceAbsent(key, IdeRestPath, "");
    assert "" + key == key;
    SplitTwo(workspace, scriptPath, "::");
  }

  /** A script name that does not follow a '/' with "ecmadmin" keeps its location through the stream writer. */
  lemma LocationKeepsName(name: string)
    requires !Contains("/" + name, "/ecmadmin")
    ensures ReplaceAll(ScriptLocation(name), "/ecmadmin", "") == ScriptLocation(name)
  {
    var head := ScriptsLocation;
    assert ScriptLocation(name) == head + ("/" + name);
    assert 'a' !in "WEB-INF" && 'a' !in "/conf/" && 'a' !in Placeholder && 'a' !in "/rest" && 'a' !in "/scripts";
    assert 'a' in "/ecmadmin" && head[|head| - 1] == 's' && 's' !in "/ecmadmin";
    ReplaceSplit(head, "/" + name, "/ecmadmin", "");
    ReplaceMissingChar(head, "/ecmadmin", "", 'a');
    ReplaceAbsent("/" + name, "/ecmadmin", "");
  }

  /**
   * The "path" property of a script's plugin, once substituted, is the
   * war: import of the entry the script was copied to, unless the name
   * begins with "ecmadmin" (the stream writer then drops "/ecmadmin") or
   * holds "WEB-INF" (the war: form then rewrites it).
   */
  lemma CopyImported(ext: string, scriptPath: string, content: Content)
    requires !Contains("/" + ScriptName(scriptPath), "/ecmadmin") && !Contains(ScriptName(scriptPath), "WEB-INF")
    ensures Imports(Substitute(WarForm(ScriptLocation(ScriptName(scriptPath))), ext), ScriptCopy(ext, scriptPath, content).name)
  {
    var name := ScriptName(scriptPath);
    LocationKeepsName(name);
    var dir := RestDir + "/scripts/";
    assert ScriptLocation(name) == "WEB-INF" + dir + name;
    assert 'W' !in "/conf/" && 'W' !in Placeholder && 'W' !in "/rest" && 'W' !in "/scripts/" && '/' !in "WEB-INF";
    WarFormAppend(dir, name);
    ImportNamesEntry(dir, name, ext);
  }

  /** The declared import, once substituted, is the war: form of the configuration entry written. */
  lemma ConfigurationImported(ext: string)
    ensures Imports(Substitute(ConfigurationPaths[0], ext), WrittenName(RestLocation + "/" + RestConfigurationName, ext))
  {
    assert 'W' !in "/conf/" && 'W' !in Placeholder && 'W' !in "/rest";
    ImportNamesEntry(RestDir, "/" + RestConfigurationName, ext);
    assert WarForm(RestLocation) + "/" + RestConfigurationName == WarForm("WEB-INF" + RestDir) + ("/" + RestConfigurationName);
    assert RestLocation + "/" + RestConfigurationName == "WEB-INF" + RestDir + ("/" + RestConfigurationName);
  }

  /** One pass of the key loop, writing the script's copy and adding its plugin to the loader group. */
  method CopyScript(zos: ZipOutput, svc: Services, ext: string, selected: string, group: ExternalComponentPlugins,
                    ghost start: seq<Entry>, ghost before: Progress)
    returns (group': ExternalComponentPlugins, failed: bool, ghost after: Progress)
    requires zos.Valid() && !before.failed
    requires zos.entries == PutAll(start, before.writes) && group == LoaderGroup(before.plugins)
    modifies zos
    ensures after == KeyStep(svc, ext, before, selected) && failed == after.failed
    ensures zos.Valid() && zos.entries == PutAll(start, after.writes) && group' == LoaderGroup(after.plugins)
  {
    hide ScriptPluginFor, PluginDocument, LoadsCopy;
    after := before;
    group' := group;
    failed := false;
    var key := ParseKey(selected);
    if key.Some? {
      var (workspace, scriptPath) := key.value;
      var content := svc.scriptContent(workspace, scriptPath);
      if content.None? {
        return group, true, before.(failed := true);
      }
      var name := ScriptName(scriptPath);
      PutAllSnoc(start, before.writes, ScriptCopy(ext, scriptPath, content.value));
      WriteStream(zos, ScriptsLocation + "/" + name, ext, content.value, false);
      var plugin := ScriptPluginFor(workspace, scriptPath);
      group' := AddComponentPlugin(group, GroovyScript2RestLoader, plugin);
      after := Progress(before.writes + [ScriptCopy(ext, scriptPath, content.value)], before.plugins + [plugin], false);
    }
  }

  /** writeData */
  method WriteData(h: Handler, zos: ZipOutput, svc: Services, ext: string, selection: seq<string>) returns (outcome: Outcome)
    requires zos.Valid()
    modifies zos
    ensures zos.Valid()
    ensures zos.entries == Apply(old(zos.entries), ext, RestRun(svc, ext, selection))
    ensures outcome == ResultOf(old(zos.entries), ext, RestRun(svc, ext, selection))
  {
    assert LoaderGroup([]) == NoPlugins;
    hide KeyStep, LoaderGroup, ScriptCopy, ScriptPluginFor, ParseKey, LoadsCopy, ScriptName, PluginDocument;
    var filtered := FilterSelectedResources(selection, IdeRestPath);
    if filtered == [] {
      DeclinedLeavesArchive(zos.entries, ext);
      return Returned(false);
    }
    var group := NoPlugins;
    ghost var progress := Progress([], [], false);
    for k := 0 to |filtered|
      invariant Steps(svc, ext, filtered[..k]) == progress && !progress.failed
      invariant group == LoaderGroup(progress.plugins)
      invariant zos.Valid() && zos.entries == PutAll(old(zos.entries), progress.writes)
    {
      assert filtered[..k + 1][..k] == filtered[..k];
      var failed;
      group, failed, progress := CopyScript(zos, svc, ext, filtered[k], group, old(zos.entries), progress);
      if failed {
        FailureSticks(svc, ext, filtered, k + 1);
        assert filtered[..|filtered|] == filtered;
        return Returned(false);
      }
    }
    assert filtered[..|filtered|] == filtered;
    ApplyAfterWrites(old(zos.entries), ext, progress.writes, RestLocation + "/" + RestConfigurationName, PluginDocument([group]));
    var ok := WritePlugins(zos, RestLocation + "/" + RestConfigurationName, ext, [group]);
    outcome := Returned(ok);
  }
}
