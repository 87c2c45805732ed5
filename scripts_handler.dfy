/**
 * The scripts handler (ScriptsConfigurationHandler): copies the selected
 * scripts under the DMS location's "scripts/" directory and declares them,
 * as resources, to the script service's "manage.script.plugin".
 */
module ScriptsHandler {
  import opened Wrappers
  import opened Strings
  import opened KernelXml
  import opened Archive
  import opened Paths
  import opened Platform
  import opened Utils
  import opened HandlerBase

  const ScriptsConfigurationName := "scripts-configuration.xml"

  /** The one import this handler declares. */
  const ConfigurationPaths := [WarForm(DmsLocation) + ScriptsConfigurationName]

  /** The export filter prefix: each selected path loses it to become a script name. */
  const FilterPrefix := EcmScriptPath + "/"

  /** The exported entries' common prefix, which the copies drop. */
  const ExportedScriptsRoot := "ecmadmin/script"

  /** The predefined-scripts location: the DMS location in import form, name substituted, without its final '/'. */
  function ScriptsLocation(ext: string): (r: string)
    ensures r == "war:/conf/" + ext + "/dms"
  {
    DmsImportForm(ext);
    var location := Substitute(WarForm(DmsLocation), ext);
    assert location == ("war:/conf/" + ext + "/dms") + "/";
    location[..|location| - 1]
  }

  /** An exported script's location relative to the script root: the first "ecmadmin/script" removed. */
  function RelativeLocation(e: Entry): string {
    ReplaceFirst(e.name, ExportedScriptsRoot, "")
  }

  /** The resource declaring a script: named and described by its relative location. */
  function ScriptResource(e: Entry): Resource {
    Resource(RelativeLocation(e), RelativeLocation(e))
  }

  /** The copy of a script, bytes unchanged, under the DMS location's "scripts/" directory. */
  function ScriptCopy(ext: string, e: Entry): Entry {
    Entry(StreamEntryName(DmsLocation + "scripts/" + RelativeLocation(e), ext), e.content)
  }

  function ScriptResources(es: seq<Entry>): (r: seq<Resource>)
    ensures |r| == |es| && forall i :: 0 <= i < |es| ==> r[i] == ScriptResource(es[i])
  {
    seq(|es|, i requires 0 <= i < |es| => ScriptResource(es[i]))
  }

  function ScriptCopies(ext: string, es: seq<Entry>): (r: seq<Entry>)
    ensures |r| == |es| && forall i :: 0 <= i < |es| ==> r[i] == ScriptCopy(ext, es[i])
  {
    seq(|es|, i requires 0 <= i < |es| => ScriptCopy(ext, es[i]))
  }

  /** The init params of the script plugin. */
  function ScriptsParams(ext: string, scripts: seq<Resource>): InitParams {
    var params := AddParam(map[], ValueParam("autoCreateInNewRepository", "true"));
    var params := AddParam(params, ValueParam("predefinedScriptsLocation", ScriptsLocation(ext)));
    AddParam(params, ObjectParam("predefined.scripts", ResourceConfig(scripts)))
  }

  function ScriptsPlugin(ext: string, scripts: seq<Resource>): ComponentPlugin {
    CreateComponentPlugin("manage.script.plugin", ScriptPlugin, "addScriptPlugin", Some(ScriptsParams(ext, scripts)), [])
  }

  /** writeData */
  function ScriptsRun(svc: Services, ext: string, selection: seq<string>): Run {
    var filtered := Filtered(selection, EcmScriptPath);
    if filtered == [] then Declined
    else
      var zip := ExportOf(svc, EcmScriptPath, StripAll(filtered, FilterPrefix));
      if zip.None? then Run([], Done(Threw))
      else
        Run(ScriptCopies(ext, zip.value), Configure(DmsLocation + ScriptsConfigurationName,
          PluginDocument([SinglePluginGroup(ScriptService, ScriptsPlugin(ext, ScriptResources(zip.value)))])))
  }

  /**
   * The scripts declared and the files copied correspond one to one and in
   * order: the i-th resource names the i-th exported entry's relative
   * location, and the i-th copy is that entry's bytes at that location below
   * "scripts/".
   */
  lemma DeclaredScriptsAreCopied(ext: string, es: seq<Entry>)
    ensures |ScriptResources(es)| == |ScriptCopies(ext, es)| == |es|
    ensures forall i :: 0 <= i < |es| ==>
      ScriptResources(es)[i].name == ScriptResources(es)[i].description &&
      ScriptCopies(ext, es)[i].name == StreamEntryName(DmsLocation + "scripts/" + ScriptResources(es)[i].name, ext) &&
      ScriptCopies(ext, es)[i].content == es[i].content
  {
  }

  /** An exported script under the script root is declared by the rest of its name. */
  lemma ExportedScriptRelative(rest: string, content: Content)
    ensures RelativeLocation(Entry(ExportedScriptsRoot + rest, content)) == rest
  {
    var s := ExportedScriptsRoot + rest;
    assert ExportedScriptsRoot <= s;
    assert IndexOf(s, ExportedScriptsRoot) == 0;
    assert s[|ExportedScriptsRoot|..] == rest;
  }

  /**
   * A run that gets through its export configures exactly one plugin,
   * "manage.script.plugin" of the script service, with three parameters:
   * automatic creation in new repositories, the predefined-scripts location
   * "war:/conf/<ext>/dms", and the declared scripts.
   */
  lemma ScriptsPluginShape(svc: Services, ext: string, selection: seq<string>)
    requires ScriptsRun(svc, ext, selection).finish.Configure?
    ensures var d := ScriptsRun(svc, ext, selection).finish.document;
      |d.externalComponentPlugins| == 1 &&
      d.externalComponentPlugins[0].targetComponent == Some(ScriptService) &&
      |PluginsOf(d.externalComponentPlugins[0])| == 1 &&
      var p := PluginsOf(d.externalComponentPlugins[0])[0];
      p.name == "manage.script.plugin" && p.pluginType == ScriptPlugin && p.setMethod == "addScriptPlugin" &&
      p.initParams.Some? && p.initParams.value.Keys == {"autoCreateInNewRepository", "predefinedScriptsLocation", "predefined.scripts"} &&
      p.initParams.value["autoCreateInNewRepository"] == ValueParam("autoCreateInNewRepository", "true") &&
      p.initParams.value["predefinedScriptsLocation"] == ValueParam("predefinedScriptsLocation", "war:/conf/" + ext + "/dms") &&
      p.initParams.value["predefined.scripts"].ObjectParam? &&
      p.initParams.value["predefined.scripts"].obj.ResourceConfig?
  {
  }

  /** The export succeeds exactly when the run reaches its configuration; a failed export escapes. */
  lemma RunOutcomes(svc: Services, ext: string, selection: seq<string>)
    ensures var filtered := Filtered(selection, EcmScriptPath);
      var run := ScriptsRun(svc, ext, selection);
      (filtered == [] <==> run == Declined) &&
      (filtered != [] ==> (run.finish.Configure? <==> ExportOf(svc, EcmScriptPath, StripAll(filtered, FilterPrefix)).Some?)) &&
      (filtered != [] && !run.finish.Configure? ==> run == Run([], Done(Threw)))
  {
  }

  /** The declared import, once substituted, is the war: form of the configuration entry written. */
  lemma ConfigurationImported(ext: string)
    ensures Imports(Substitute(ConfigurationPaths[0], ext), WrittenName(DmsLocation + ScriptsConfigurationName, ext))
  {
    DmsImportNames(ScriptsConfigurationName, ext);
  }

  /** The entry loop: each exported entry is declared as a resource, then copied. */
  method CopyScripts(zos: ZipOutput, ext: string, es: seq<Entry>) returns (scripts: seq<Resource>)
    requires zos.Valid()
    modifies zos
    ensures zos.Valid()
    ensures scripts == ScriptResources(es)
    ensures zos.entries == PutAll(old(zos.entries), ScriptCopies(ext, es))
  {
    scripts := [];
    for j := 0 to |es|
      invariant zos.Valid()
      invariant scripts == ScriptResources(es[..j])
      invariant zos.entries == PutAll(old(zos.entries), ScriptCopies(ext, es[..j]))
    {
      var relative := ReplaceFirst(es[j].name, ExportedScriptsRoot, "");
      assert ScriptResources(es[..j + 1]) == ScriptResources(es[..j]) + [ScriptResource(es[j])];
      scripts := scripts + [Resource(relative, relative)];
      assert ScriptCopies(ext, es[..j + 1]) == ScriptCopies(ext, es[..j]) + [ScriptCopy(ext, es[j])];
      PutAllSnoc(old(zos.entries), ScriptCopies(ext, es[..j]), ScriptCopy(ext, es[j]));
      WriteStream(zos, DmsLocation + "scripts/" + relative, ext, es[j].content, false);
    }
    assert es[..|es|] == es;
  }

  /** writeData */
  method WriteData(h: Handler, zos: ZipOutput, svc: Services, ext: string, selection: seq<string>) returns (outcome: Outcome)
    requires zos.Valid()
    modifies h, zos
    ensures zos.Valid()
    ensures zos.entries == Apply(old(zos.entries), ext, ScriptsRun(svc, ext, selection))
    ensures outcome == ResultOf(old(zos.entries), ext, ScriptsRun(svc, ext, selection))
    ensures h.tempFiles == (if Filtered(selection, EcmScriptPath) == [] then old(h.tempFiles) else [])
    ensures h.configurationPaths == old(h.configurationPaths)
  {
    var filtered := FilterSelectedResources(selection, EcmScriptPath);
    if filtered == [] {
      DeclinedLeavesArchive(zos.entries, ext);
      return Returned(false);
    }
    var filters := ExportFilters(filtered, FilterPrefix);
    var zip := Export(h, svc, EcmScriptPath, filters);
    if zip.None? {
      ClearTempFiles(h);
      return Threw;
    }
    var scripts := CopyScripts(zos, ext, zip.value);
    ClearTempFiles(h);
    var group := SinglePluginGroup(ScriptService, ScriptsPlugin(ext, scripts));
    ApplyAfterWrites(old(zos.entries), ext, ScriptCopies(ext, zip.value), DmsLocation + ScriptsConfigurationName, PluginDocument([group]));
    var ok := WritePlugins(zos, DmsLocation + ScriptsConfigurationName, ext, [group]);
    outcome := Returned(ok);
  }
}
