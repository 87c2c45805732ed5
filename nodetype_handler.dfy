/**
 * The node-type handler (NodeTypeConfigurationHandler): exports the selected
 * node types, keeps the one type each exported file declares, orders them so
 * that every type follows its supertypes, writes them as one nodetypes.xml,
 * and registers that file with the repository service.
 */
module NodeTypeHandler {
  import opened Wrappers
  import opened Strings
  import opened KernelXml
  import opened Archive
  import opened Paths
  import opened Platform
  import opened Utils
  import opened HandlerBase
  import opened NodeTypeOrder

  const JcrConfigurationName := "jcr-component-plugins-configuration.xml"
  /** The JCR configuration location, and its part below WEB-INF. */
  const JcrDir := "/conf/" + Placeholder + "/jcr/"
  const JcrConfigurationLocation := "WEB-INF" + JcrDir
  const NodeTypeConfigurationLocation := JcrConfigurationLocation + "nodetypes.xml"
  const NamespacesEntry := "ecmadmin/nodetype/jcr-namespaces-configuration.xml"

  /** The one import this handler declares. */
  const ConfigurationPaths := [WarForm(JcrConfigurationLocation) + JcrConfigurationName]

  /** The export filter for a selected node-type path: the type name. */
  const FilterPrefix := EcmNodetypePath + "/"

  /** The exported namespace configuration is not a node-type file. */
  predicate IsNamespaceFile(e: Entry) {
    EndsWith(e.name, NamespacesEntry)
  }

  /**
   * addNodeType: the type an exported file contributes. Only a file that
   * unmarshals and declares exactly one type counts, and only when the
   * manager knows that type (getNodeType throws otherwise).
   */
  function DeclaredType(svc: Services, e: Entry): (r: Option<string>)
    ensures r.Some? <==> svc.declaredNodeTypes(e.content).Some? && |svc.declaredNodeTypes(e.content).value| == 1
                         && svc.declaredNodeTypes(e.content).value[0] in svc.nodeTypes
    ensures r.Some? ==> r.value == svc.declaredNodeTypes(e.content).value[0]
  {
    var declared := svc.declaredNodeTypes(e.content);
    if declared.Some? && |declared.value| == 1 && declared.value[0] in svc.nodeTypes then Some(declared.value[0]) else None
  }

  /**
   * `v` is `v0` reordered so that every type follows its supertypes, and is
   * `v0` itself when that was already so.
   */
  predicate SortedFrom(g: Graph, v0: seq<string>, v: seq<string>)
    requires Closed(g) && InGraph(g, v0)
  {
    multiset(v) == multiset(v0) && InGraph(g, v) && DependencyOrdered(g, v) &&
    (DependencyOrdered(g, v0) ==> v == v0)
  }

  /** The types collected from the exported entries, in entry order. */
  function Collected(svc: Services, es: seq<Entry>): (r: seq<string>)
    ensures InGraph(svc.nodeTypes, r)
    decreases |es|
  {
    if es == [] then []
    else
      var e := es[|es| - 1];
      Collected(svc, es[..|es| - 1]) + (if !IsNamespaceFile(e) && DeclaredType(svc, e).Some? then [DeclaredType(svc, e).value] else [])
  }

  /**
   * The namespace file never contributes a type, and a type is collected
   * exactly when some other file declares it alone; every collected type is
   * one the manager knows.
   */
  lemma {:induction false} CollectedFacts(svc: Services, es: seq<Entry>)
    ensures InGraph(svc.nodeTypes, Collected(svc, es))
    ensures |Collected(svc, es)| <= |es|
    ensures forall t :: t in Collected(svc, es) <==> exists e :: e in es && !IsNamespaceFile(e) && DeclaredType(svc, e) == Some(t)
    decreases |es|
  {
    if es != [] {
      var init := es[..|es| - 1];
      CollectedFacts(svc, init);
      assert es == init + [es[|es| - 1]];
    }
  }

  /**
   * The repository-service group of the exported namespace configuration:
   * no plugins when the entry is missing or does not unmarshal (the error is
   * logged), None when the configuration has no such group, so that
   * addComponentPlugin is then handed null.
   */
  function NamespaceGroup(svc: Services, es: seq<Entry>): Option<ExternalComponentPlugins> {
    var entry := FindEntry(es, NamespacesEntry);
    if entry.None? then Some(NoPlugins)
    else
      var conf := svc.parseConfiguration(entry.value.content);
      if conf.None? then Some(NoPlugins) else GroupFor(conf.value.externalComponentPlugins, RepositoryService)
  }

  /** The add.nodetype plugin: priority 100, registering the written nodetypes.xml in its war: form. */
  function NodeTypePlugin(ext: string): ComponentPlugin {
    var values := ValuesParam("autoCreatedInNewRepository", [Substitute(WarForm(NodeTypeConfigurationLocation), ext)]);
    CreateComponentPlugin("add.nodetype", AddNodeTypePlugin, "addPlugin", None, [values]).(priority := 100)
  }

  /** The types the sort is handed, when the run gets that far. */
  function Discovered(svc: Services, selection: seq<string>): seq<string> {
    var filtered := Filtered(selection, EcmNodetypePath);
    var zip := ExportOf(svc, EcmNodetypePath, StripAll(filtered, FilterPrefix));
    if filtered == [] || zip.None? || NamespaceGroup(svc, zip.value).None? then [] else Collected(svc, zip.value)
  }

  /** The run reaches the sort: something was selected, exported, and the namespace group was usable. */
  predicate SortReached(svc: Services, selection: seq<string>) {
    var filtered := Filtered(selection, EcmNodetypePath);
    var zip := ExportOf(svc, EcmNodetypePath, StripAll(filtered, FilterPrefix));
    filtered != [] && zip.Some? && NamespaceGroup(svc, zip.value).Some?
  }

  /**
   * writeData, for the order `ordered` the sort produced: nothing selected
   * or a failed export or a null group gives false; otherwise nodetypes.xml
   * is written from the ordered types and the configuration holds the
   * namespace group with the add.nodetype plugin appended.
   */
  function NodeTypeRun(svc: Services, ext: string, selection: seq<string>, ordered: seq<string>): Run {
    var filtered := Filtered(selection, EcmNodetypePath);
    var zip := ExportOf(svc, EcmNodetypePath, StripAll(filtered, FilterPrefix));
    if filtered == [] || zip.None? then Declined
    else
      var group := NamespaceGroup(svc, zip.value);
      if group.None? then Declined
      else
        Run([Entry(WrittenName(NodeTypeConfigurationLocation, ext), Text(svc.nodeTypeXml(ordered)))],
            Configure(JcrConfigurationLocation + JcrConfigurationName,
                      PluginDocument([AddComponentPlugin(group.value, RepositoryService, NodeTypePlugin(ext))])))
  }

  /** The declared import, once substituted, is the war: form of the configuration entry the run writes. */
  lemma ConfigurationImported(ext: string)
    ensures Imports(Substitute(ConfigurationPaths[0], ext), WrittenName(JcrConfigurationLocation + JcrConfigurationName, ext))
  {
    assert 'W' !in "/conf/" && 'W' !in Placeholder && 'W' !in "/jcr/";
    ImportNamesEntry(JcrDir, JcrConfigurationName, ext);
  }

  /** The add.nodetype plugin has priority 100 and lists exactly the war: form of the nodetypes.xml entry written. */
  lemma PluginListsWrittenFile(ext: string)
    ensures NodeTypePlugin(ext).priority == 100 && NodeTypePlugin(ext).name == "add.nodetype"
    ensures NodeTypePlugin(ext).pluginType == AddNodeTypePlugin
    ensures exists v :: NodeTypePlugin(ext).initParams == Some(map["autoCreatedInNewRepository" := ValuesParam("autoCreatedInNewRepository", [v])])
                        && Imports(v, WrittenName(NodeTypeConfigurationLocation, ext))
  {
    var dir := JcrDir + "nodetypes.xml";
    assert 'W' !in "/conf/" && 'W' !in Placeholder && 'W' !in "/jcr/" && 'W' !in "nodetypes.xml";
    assert NodeTypeConfigurationLocation == "WEB-INF" + dir;
    ImportNamesFile(dir, ext);
    var v := Substitute(WarForm(NodeTypeConfigurationLocation), ext);
    SingleParam(ValuesParam("autoCreatedInNewRepository", [v]));
  }

  /** Where the run stops short of the sort, it declines. */
  lemma RunDeclines(svc: Services, ext: string, selection: seq<string>, ordered: seq<string>)
    requires !SortReached(svc, selection)
    ensures NodeTypeRun(svc, ext, selection, ordered) == Declined
  {
  }

  /** Where the run reaches the sort, it writes nodetypes.xml and the configuration. */
  lemma RunReaches(svc: Services, ext: string, selection: seq<string>, ordered: seq<string>,
                   es: seq<Entry>, group: ExternalComponentPlugins)
    requires Filtered(selection, EcmNodetypePath) != []
    requires ExportOf(svc, EcmNodetypePath, StripAll(Filtered(selection, EcmNodetypePath), FilterPrefix)) == Some(es)
    requires NamespaceGroup(svc, es) == Some(group)
    ensures SortReached(svc, selection) && Discovered(svc, selection) == Collected(svc, es)
    ensures NodeTypeRun(svc, ext, selection, ordered) ==
      Run([Entry(WrittenName(NodeTypeConfigurationLocation, ext), Text(svc.nodeTypeXml(ordered)))],
          Configure(JcrConfigurationLocation + JcrConfigurationName,
                    PluginDocument([AddComponentPlugin(group, RepositoryService, NodeTypePlugin(ext))])))
  {
  }

  /** The entry loop of writeData: each non-namespace file adds the type it declares alone. */
  method CollectNodeTypes(svc: Services, es: seq<Entry>) returns (nodeTypeValues: seq<string>)
    ensures nodeTypeValues == Collected(svc, es)
    ensures InGraph(svc.nodeTypes, nodeTypeValues)
  {
    nodeTypeValues := [];
    for k := 0 to |es|
      invariant nodeTypeValues == Collected(svc, es[..k])
    {
      assert es[..k + 1][..k] == es[..k];
      if !IsNamespaceFile(es[k]) {
        var t := DeclaredType(svc, es[k]);
        if t.Some? {
          nodeTypeValues := nodeTypeValues + [t.value];
        }
      }
    }
    assert es[..|es|] == es;
    CollectedFacts(svc, es);
  }

  /** writeData */
  method WriteData(h: Handler, zos: ZipOutput, svc: Services, ext: string, selection: seq<string>)
    returns (outcome: Outcome, ordered: seq<string>)
    requires zos.Valid()
    requires Closed(svc.nodeTypes) && Acyclic(svc.nodeTypes)
    requires Distinct(Discovered(svc, selection))
    modifies h, zos
    ensures zos.Valid()
    ensures zos.entries == Apply(old(zos.entries), ext, NodeTypeRun(svc, ext, selection, ordered))
    ensures outcome == ResultOf(old(zos.entries), ext, NodeTypeRun(svc, ext, selection, ordered))
    ensures SortReached(svc, selection) ==> SortedFrom(svc.nodeTypes, Discovered(svc, selection), ordered)
    ensures h.tempFiles == (if Filtered(selection, EcmNodetypePath) == [] then old(h.tempFiles) else [])
    ensures h.configurationPaths == old(h.configurationPaths)
  {
    ordered := [];
    var filtered := FilterSelectedResources(selection, EcmNodetypePath);
    if filtered == [] {
      RunDeclines(svc, ext, selection, []);
      DeclinedLeavesArchive(zos.entries, ext);
      return Returned(false), [];
    }
    var filters := ExportFilters(filtered, FilterPrefix);
    var zip := Export(h, svc, EcmNodetypePath, filters);
    if zip.None? {
      ClearTempFiles(h);
      RunDeclines(svc, ext, selection, []);
      DeclinedLeavesArchive(zos.entries, ext);
      return Returned(false), [];
    }
    var es := zip.value;
    var group := NamespaceGroup(svc, es);
    if group.None? {
      ClearTempFiles(h);
      RunDeclines(svc, ext, selection, []);
      DeclinedLeavesArchive(zos.entries, ext);
      return Returned(false), [];
    }
    RunReaches(svc, ext, selection, [], es, group.value);
    var ecp := AddComponentPlugin(group.value, RepositoryService, NodeTypePlugin(ext));
    var nodeTypeValues := CollectNodeTypes(svc, es);
    ordered := SortByDependencies(svc.nodeTypes, nodeTypeValues);
    assert SortedFrom(svc.nodeTypes, nodeTypeValues, ordered);
    RunReaches(svc, ext, selection, ordered, es, group.value);
    ApplyOneWrite(zos.entries, ext, Entry(WrittenName(NodeTypeConfigurationLocation, ext), Text(svc.nodeTypeXml(ordered))),
                  JcrConfigurationLocation + JcrConfigurationName,
                  PluginDocument([AddComponentPlugin(group.value, RepositoryService, NodeTypePlugin(ext))]));
    WriteString(zos, NodeTypeConfigurationLocation, ext, Text(svc.nodeTypeXml(ordered)), false);
    ClearTempFiles(h);
    var ok := WritePlugins(zos, JcrConfigurationLocation + JcrConfigurationName, ext, [ecp]);
    outcome := Returned(ok);
  }
}
