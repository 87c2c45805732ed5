/**
 * What the node-type templates handler (NodeTypeTemplatesConfigurationHandler)
 * and the metadata templates handler (MetadataTemplatesConfigurationHandler)
 * do alike: one filtered export, whose "metadata.xml" entries are read as
 * template metadata and whose other entries are copied under the DMS
 * location with ':' replaced by '_'; then one plugin declaring a node-type
 * record per metadata. The two handlers differ only in the settings below.
 */
module DmsTemplatesHandler {
  import opened Wrappers
  import opened Strings
  import opened KernelXml
  import opened Archive
  import opened Paths
  import opened Platform
  import opened Utils
  import opened HandlerBase

  /**
   * The managed path the selection is filtered on and exported from, the
   * templates' stored location, the configuration file's name, the object
   * parameter's name, the plugin's set-method and the target service.
   */
  datatype Settings = Settings(
    managedPath: string,
    storedLocation: string,
    configurationName: string,
    objectName: string,
    setMethod: string,
    targetService: ClassName)

  /** An entry read as template metadata rather than copied. */
  predicate IsMetadata(e: Entry) {
    EndsWith(e.name, "metadata.xml")
  }

  /** The copy of a template file: under the DMS location, every ':' of its name replaced by '_', bytes unchanged. */
  function TemplateCopy(ext: string, e: Entry): Entry {
    Entry(StreamEntryName(DmsLocation + ReplaceAll(e.name, ":", "_"), ext), e.content)
  }

  /** The entries written and the metadata read so far, and whether reading a metadata entry failed. */
  datatype Scan = Scan(writes: seq<Entry>, metadatas: seq<NodeMetadata>, failed: bool)

  /** The entry loop, in entry order; a metadata entry that does not unmarshal ends it (the handler returns false). */
  function ScanEntries(svc: Services, ext: string, es: seq<Entry>): Scan
    decreases |es|
  {
    if es == [] then Scan([], [], false)
    else
      var before := ScanEntries(svc, ext, es[..|es| - 1]);
      var e := es[|es| - 1];
      if before.failed then before
      else if IsMetadata(e) then
        var m := svc.parseNodeMetadata(e.content);
        if m.None? then before.(failed := true) else before.(metadatas := before.metadatas + [m.value])
      else before.(writes := before.writes + [TemplateCopy(ext, e)])
  }

  /** Once a metadata entry has failed, the loop's result is settled. */
  lemma {:induction false} FailureSticks(svc: Services, ext: string, es: seq<Entry>, k: nat)
    requires k <= |es| && ScanEntries(svc, ext, es[..k]).failed
    ensures ScanEntries(svc, ext, es) == ScanEntries(svc, ext, es[..k])
    decreases |es| - k
  {
    if k < |es| {
      assert es[..k + 1][..k] == es[..k];
      FailureSticks(svc, ext, es, k + 1);
    } else {
      assert es[..k] == es;
    }
  }

  /**
   * The loop fails exactly when some metadata entry does not unmarshal; when
   * it does not fail, every entry is either copied or read, never both:
   * exactly the other entries are copied, and one metadata is read per
   * metadata entry.
   */
  lemma {:induction false} ScanExactly(svc: Services, ext: string, es: seq<Entry>)
    ensures ScanEntries(svc, ext, es).failed <==> exists e :: e in es && IsMetadata(e) && svc.parseNodeMetadata(e.content).None?
    ensures !ScanEntries(svc, ext, es).failed ==>
      |ScanEntries(svc, ext, es).writes| + |ScanEntries(svc, ext, es).metadatas| == |es|
    ensures !ScanEntries(svc, ext, es).failed ==>
      forall w :: w in ScanEntries(svc, ext, es).writes <==> exists e :: e in es && !IsMetadata(e) && w == TemplateCopy(ext, e)
    ensures !ScanEntries(svc, ext, es).failed ==>
      forall m :: m in ScanEntries(svc, ext, es).metadatas <==>
        exists e :: e in es && IsMetadata(e) && svc.parseNodeMetadata(e.content) == Some(m)
    decreases |es|
  {
    if es != [] {
      var init := es[..|es| - 1];
      ScanExactly(svc, ext, init);
      assert es == init + [es[|es| - 1]];
    }
  }

  /** No copied file's location holds ':'. */
  lemma CopyLocationHasNoColon(e: Entry)
    ensures ':' !in DmsLocation + ReplaceAll(e.name, ":", "_")
  {
    assert ':' !in "WEB-INF" && ':' !in "/conf/" && ':' !in Placeholder && ':' !in "/dms/";
    ReplaceColonGone(e.name);
  }

  /** A template list of the metadata: `templates.get(kind)`, converted; a missing list gives none. */
  function TemplatesOfKind(m: NodeMetadata, kind: string): seq<Template> {
    if kind in m.templates then ConvertedTemplates(m.templates[kind]) else []
  }

  /** The node-type record of one metadata: its name, label and flag, and its dialogs, views and skins converted. */
  function NodeTypeRecord(m: NodeMetadata): NodeTypeTemplates {
    NodeTypeTemplates.NodeTypeTemplates(m.nodetypeName, m.typeLabel, m.documentTemplate,
      TemplatesOfKind(m, "dialogs"), TemplatesOfKind(m, "views"), TemplatesOfKind(m, "skins"))
  }

  function NodeTypeRecords(ms: seq<NodeMetadata>): (r: seq<NodeTypeTemplates>)
    ensures |r| == |ms| && forall i :: 0 <= i < |ms| ==> r[i] == NodeTypeRecord(ms[i])
  {
    seq(|ms|, i requires 0 <= i < |ms| => NodeTypeRecord(ms[i]))
  }

  /**
   * Each record keeps its metadata's name, label and flag, and references
   * only template files without ':'; a metadata whose templates all have a
   * file keeps every one of them.
   */
  lemma RecordFacts(m: NodeMetadata, kind: string)
    ensures NodeTypeRecord(m).nodetypeName == m.nodetypeName && NodeTypeRecord(m).typeLabel == m.typeLabel
    ensures NodeTypeRecord(m).documentTemplate == m.documentTemplate
    ensures forall t :: t in TemplatesOfKind(m, kind) ==> ':' !in t.templateFile
    ensures kind in m.templates && (forall i :: 0 <= i < |m.templates[kind]| ==> m.templates[kind][i].templateFile.Some?) ==>
      |TemplatesOfKind(m, kind)| == |m.templates[kind]|
  {
    if kind in m.templates {
      ConvertedTemplatesFacts(m.templates[kind]);
    }
  }

  /** The plugin's parameters: automatic creation, the stored location in war: form with the name substituted, and the records. */
  function TemplatesParams(s: Settings, ext: string, records: seq<NodeTypeTemplates>): InitParams {
    var params := AddParam(map[], ValueParam("autoCreateInNewRepository", "true"));
    var params := AddParam(params, ValueParam("storedLocation", Substitute(WarForm(s.storedLocation), ext)));
    AddParam(params, ObjectParam(s.objectName, TemplateConfig(records)))
  }

  function TemplatesPlugin(s: Settings, ext: string, records: seq<NodeTypeTemplates>): ComponentPlugin {
    CreateComponentPlugin("addPlugins", TemplatePlugin, s.setMethod, Some(TemplatesParams(s, ext, records)), [])
  }

  /** writeData */
  function TemplatesRun(svc: Services, s: Settings, ext: string, selection: seq<string>): Run
    requires s.managedPath != []
  {
    var filtered := Filtered(selection, s.managedPath);
    if filtered == [] then Declined
    else
      var zip := ExportOf(svc, s.managedPath, StripAll(filtered, s.managedPath + "/"));
      if zip.None? then Run([], Done(Threw))
      else
        var scan := ScanEntries(svc, ext, zip.value);
        if scan.failed then Run(scan.writes, Done(Returned(false)))
        else
          Run(scan.writes, Configure(DmsLocation + s.configurationName,
            PluginDocument([SinglePluginGroup(s.targetService, TemplatesPlugin(s, ext, NodeTypeRecords(scan.metadatas)))])))
  }

  /**
   * An empty selection declines; a failed export escapes; a metadata entry
   * that does not unmarshal makes the run return false after the copies made
   * before it; otherwise the run reaches its configuration.
   */
  lemma RunOutcomes(svc: Services, s: Settings, ext: string, selection: seq<string>)
    requires s.managedPath != []
    ensures var filtered := Filtered(selection, s.managedPath);
      var zip := ExportOf(svc, s.managedPath, StripAll(filtered, s.managedPath + "/"));
      var run := TemplatesRun(svc, s, ext, selection);
      (filtered == [] ==> run == Declined) &&
      (filtered != [] && zip.None? ==> run == Run([], Done(Threw))) &&
      (filtered != [] && zip.Some? ==>
        (run.finish.Configure? <==> forall e :: e in zip.value && IsMetadata(e) ==> svc.parseNodeMetadata(e.content).Some?) &&
        (!run.finish.Configure? ==> run.finish == Done(Returned(false))))
  {
    var filtered := Filtered(selection, s.managedPath);
    var zip := ExportOf(svc, s.managedPath, StripAll(filtered, s.managedPath + "/"));
    if filtered != [] && zip.Some? {
      ScanExactly(svc, ext, zip.value);
    }
  }

  /**
   * A configured run declares one "addPlugins" plugin on the target service,
   * with exactly three parameters: automatic creation, the stored location,
   * and the node-type records of the metadata read, one per metadata, in order.
   */
  lemma PluginShape(svc: Services, s: Settings, ext: string, selection: seq<string>)
    requires s.managedPath != [] && TemplatesRun(svc, s, ext, selection).finish.Configure?
    requires s.objectName != "autoCreateInNewRepository" && s.objectName != "storedLocation"
    ensures var filtered := Filtered(selection, s.managedPath);
      var zip := ExportOf(svc, s.managedPath, StripAll(filtered, s.managedPath + "/")).value;
      var records := NodeTypeRecords(ScanEntries(svc, ext, zip).metadatas);
      var p := TemplatesPlugin(s, ext, records);
      TemplatesRun(svc, s, ext, selection).finish.document.externalComponentPlugins ==
        [ExternalComponentPlugins(Some(s.targetService), Some([p]))] &&
      p.name == "addPlugins" && p.pluginType == TemplatePlugin && p.setMethod == s.setMethod &&
      p.initParams == Some(map[
        "autoCreateInNewRepository" := ValueParam("autoCreateInNewRepository", "true"),
        "storedLocation" := ValueParam("storedLocation", Substitute(WarForm(s.storedLocation), ext)),
        s.objectName := ObjectParam(s.objectName, TemplateConfig(records))])
  {
  }

  /** The entry loop: metadata entries are read, the others copied; a metadata entry that does not unmarshal stops it. */
  method ReadEntries(zos: ZipOutput, svc: Services, ext: string, es: seq<Entry>) returns (metadatas: seq<NodeMetadata>, ok: bool)
    requires zos.Valid()
    modifies zos
    ensures zos.Valid()
    ensures ok == !ScanEntries(svc, ext, es).failed
    ensures ok ==> metadatas == ScanEntries(svc, ext, es).metadatas
    ensures zos.entries == PutAll(old(zos.entries), ScanEntries(svc, ext, es).writes)
  {
    metadatas := [];
    ghost var writes: seq<Entry> := [];
    for j := 0 to |es|
      invariant ScanEntries(svc, ext, es[..j]) == Scan(writes, metadatas, false)
      invariant zos.Valid() && zos.entries == PutAll(old(zos.entries), writes)
    {
      assert es[..j + 1][..j] == es[..j];
      var e := es[j];
      if EndsWith(e.name, "metadata.xml") {
        var m := svc.parseNodeMetadata(e.content);
        if m.None? {
          FailureSticks(svc, ext, es, j + 1);
          return metadatas, false;
        }
        metadatas := metadatas + [m.value];
      } else {
        PutAllSnoc(old(zos.entries), writes, TemplateCopy(ext, e));
        WriteStream(zos, DmsLocation + ReplaceAll(e.name, ":", "_"), ext, e.content, false);
        writes := writes + [TemplateCopy(ext, e)];
      }
    }
    assert es[..|es|] == es;
    ok := true;
  }

  /** `templates.get(kind)`, converted by convertTemplateList. */
  method ConvertKind(m: NodeMetadata, kind: string) returns (templates: seq<Template>)
    ensures templates == TemplatesOfKind(m, kind)
  {
    templates := ConvertTemplateList(if kind in m.templates then Some(m.templates[kind]) else None);
  }

  /** The record loop: one node-type record per metadata, in order. */
  method BuildRecords(ms: seq<NodeMetadata>) returns (records: seq<NodeTypeTemplates>)
    ensures records == NodeTypeRecords(ms)
  {
    records := [];
    for k := 0 to |ms|
      invariant records == NodeTypeRecords(ms[..k])
    {
      var m := ms[k];
      var dialogs := ConvertKind(m, "dialogs");
      var views := ConvertKind(m, "views");
      var skins := ConvertKind(m, "skins");
      records := records + [NodeTypeTemplates.NodeTypeTemplates(m.nodetypeName, m.typeLabel, m.documentTemplate, dialogs, views, skins)];
    }
    assert ms[..|ms|] == ms;
  }

  /** writeData */
  method WriteData(h: Handler, zos: ZipOutput, svc: Services, s: Settings, ext: string, selection: seq<string>)
    returns (outcome: Outcome)
    requires s.managedPath != [] && zos.Valid()
    modifies h, zos
    ensures zos.Valid()
    ensures zos.entries == Apply(old(zos.entries), ext, TemplatesRun(svc, s, ext, selection))
    ensures outcome == ResultOf(old(zos.entries), ext, TemplatesRun(svc, s, ext, selection))
    ensures h.tempFiles == (if Filtered(selection, s.managedPath) == [] then old(h.tempFiles) else [])
    ensures h.configurationPaths == old(h.configurationPaths)
  {
    var filtered := FilterSelectedResources(selection, s.managedPath);
    if filtered == [] {
      DeclinedLeavesArchive(zos.entries, ext);
      return Returned(false);
    }
    var filters := ExportFilters(filtered, s.managedPath + "/");
    var zip := Export(h, svc, s.managedPath, filters);
    if zip.None? {
      ClearTempFiles(h);
      return Threw;
    }
    var metadatas, ok := ReadEntries(zos, svc, ext, zip.value);
    ClearTempFiles(h);
    if !ok {
      return Returned(false);
    }
    var records := BuildRecords(metadatas);
    var group := SinglePluginGroup(s.targetService, TemplatesPlugin(s, ext, records));
    ApplyAfterWrites(old(zos.entries), ext, ScanEntries(svc, ext, zip.value).writes, DmsLocation + s.configurationName, PluginDocument([group]));
    var written := WritePlugins(zos, DmsLocation + s.configurationName, ext, [group]);
    outcome := Returned(written);
  }
}
