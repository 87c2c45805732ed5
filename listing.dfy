/**
 * The resource listings the generator offers for selection
 * (ExtensionGeneratorImpl): the children of a managed resource, sorted by
 * name; the Groovy REST services saved from the IDE, less the predefined
 * ones; and the gadgets deployed from the repository.
 */
module Listing {
  import opened Wrappers
  import opened Strings
  import opened KernelXml
  import opened Paths
  import opened Platform
  import opened Nodes
  import RestHandler
  import GadgetsHandler

  /** What a node shows: its text, its description and the path that selects it. */
  datatype NodeInfo = NodeInfo(text: string, description: string, path: string)

  function InfoOf(n: Node): NodeInfo
    reads n
  {
    NodeInfo(n.text, n.description, n.path)
  }

  // -------------------------------------------------------------------------
  // getNodes: the children of a managed resource.

  /** A child of a resource: its name and its description. */
  type Child = (string, string)

  predicate SortedByName(cs: seq<Child>) {
    forall i, j :: 0 <= i < j < |cs| ==> CompareStrings(cs[i].0, cs[j].0) <= 0
  }

  /** Inserts `c` after every child that does not come after it (so the sort is stable). */
  function Insert(c: Child, sorted: seq<Child>): (r: seq<Child>)
    ensures multiset(r) == multiset(sorted) + multiset{c}
    ensures SortedByName(sorted) ==> SortedByName(r)
    decreases |sorted|
  {
    if sorted == [] then [c]
    else if CompareStrings(c.0, sorted[0].0) < 0 then
      InsertFront(c, sorted);
      [c] + sorted
    else
      var rest := Insert(c, sorted[1..]);
      assert sorted == [sorted[0]] + sorted[1..];
      CompareAntisymmetric(c.0, sorted[0].0);
      InsertBehind(sorted[0], c, sorted[1..], rest);
      [sorted[0]] + rest
  }

  /** A child before the first of a sorted list, and so before all of it. */
  lemma InsertFront(c: Child, sorted: seq<Child>)
    requires sorted != [] && CompareStrings(c.0, sorted[0].0) < 0
    ensures SortedByName(sorted) ==> SortedByName([c] + sorted)
  {
    if SortedByName(sorted) {
      forall j | 0 <= j < |sorted|
        ensures CompareStrings(c.0, sorted[j].0) <= 0
      {
        if j > 0 {
          CompareTransitive(c.0, sorted[0].0, sorted[j].0);
        }
      }
    }
  }

  /** A head that comes before everything inserted behind it keeps the list sorted. */
  lemma InsertBehind(head: Child, c: Child, tail: seq<Child>, rest: seq<Child>)
    requires CompareStrings(head.0, c.0) <= 0
    requires multiset(rest) == multiset(tail) + multiset{c}
    requires SortedByName([head] + tail) ==> SortedByName(rest)
    ensures SortedByName([head] + tail) ==> SortedByName([head] + rest)
  {
    if SortedByName([head] + tail) {
      forall j | 0 <= j < |rest|
        ensures CompareStrings(head.0, rest[j].0) <= 0
      {
        assert rest[j] in multiset(rest);
        if rest[j] != c {
          assert rest[j] in multiset(tail);
          var k :| 0 <= k < |tail| && tail[k] == rest[j];
          var whole := [head] + tail;
          assert whole[0] == head && whole[k + 1] == tail[k];
          assert CompareStrings(whole[0].0, whole[k + 1].0) <= 0;
        }
      }
    }
  }

  /** Collections.sort on the children, by name. */
  function SortByName(cs: seq<Child>): (r: seq<Child>)
    ensures multiset(r) == multiset(cs)
    ensures SortedByName(r)
    decreases |cs|
  {
    if cs == [] then []
    else
      assert cs == cs[..|cs| - 1] + [cs[|cs| - 1]];
      Insert(cs[|cs| - 1], SortByName(cs[..|cs| - 1]))
  }

  /** The node for a child of the resource at `path`. */
  function ChildNode(path: string, c: Child): NodeInfo {
    NodeInfo(c.0, c.1, path + "/" + c.0)
  }

  function ChildNodes(path: string, cs: seq<Child>): (r: seq<NodeInfo>)
    ensures |r| == |cs|
    ensures forall i :: 0 <= i < |cs| ==> r[i] == ChildNode(path, cs[i])
  {
    seq(|cs|, i requires 0 <= i < |cs| => ChildNode(path, cs[i]))
  }

  /**
   * What getNodes lists for a resource read at `path`: its children sorted
   * by name, or, when it has none, the resource itself under its own path.
   * None for a null children set: the list is sized on it before the null
   * test, so the call throws.
   */
  function ResourceNodes(path: string, r: ReadResource): Option<seq<NodeInfo>> {
    if r.children.None? then None
    else if r.children.value == [] then Some([NodeInfo(path, r.description, path)])
    else Some(ChildNodes(path, SortByName(r.children.value)))
  }

  /**
   * A null children set throws; a resource with children lists one node per
   * child, each selected by the resource path, '/', and the child's name, in
   * the order of their names; a resource without children lists itself.
   */
  lemma ResourceNodesFacts(path: string, r: ReadResource)
    ensures ResourceNodes(path, r).None? <==> r.children.None?
    ensures r.children == Some([]) ==> ResourceNodes(path, r) == Some([NodeInfo(path, r.description, path)])
    ensures r.children.Some? && r.children.value != [] ==>
      var infos := ResourceNodes(path, r).value;
      var cs := r.children.value;
      |infos| == |cs| &&
      (forall i :: 0 <= i < |infos| ==> infos[i].path == path + "/" + infos[i].text) &&
      (forall i, j :: 0 <= i < j < |infos| ==> CompareStrings(infos[i].text, infos[j].text) <= 0) &&
      (forall c :: c in cs <==> ChildNode(path, c) in infos)
  {
    if r.children.Some? && r.children.value != [] {
      var cs := r.children.value;
      var sorted := SortByName(cs);
      var infos := ResourceNodes(path, r).value;
      assert |sorted| == |multiset(sorted)| == |multiset(cs)| == |cs|;
      forall c
        ensures c in cs <==> ChildNode(path, c) in infos
      {
        assert c in cs <==> c in multiset(sorted);
        if ChildNode(path, c) in infos {
          var i :| 0 <= i < |infos| && infos[i] == ChildNode(path, c);
          assert sorted[i] == c;
        }
        if c in sorted {
          var i :| 0 <= i < |sorted| && sorted[i] == c;
          assert infos[i] == ChildNode(path, c);
        }
      }
    }
  }

  /** The null test getNodes makes after sizing the list cannot be reached with a null children set. */
  lemma NullChildrenThrow(path: string, description: string)
    ensures ResourceNodes(path, ReadResource(description, None)).None?
    ensures GuardedResourceNodes(path, ReadResource(description, None)) == [NodeInfo(path, description, path)]
  {
  }

  /** getNodes with the null test made before the list is sized: a null children set lists the resource itself. */
  function GuardedResourceNodes(path: string, r: ReadResource): seq<NodeInfo> {
    if r.children.None? || r.children.value == [] then [NodeInfo(path, r.description, path)]
    else ChildNodes(path, SortByName(r.children.value))
  }

  /**
   * The guarded listing never throws and is never empty: it lists the
   * resource itself exactly when the children set is null or empty, and it
   * agrees with getNodes wherever getNodes returns.
   */
  lemma GuardedResourceNodesFacts(path: string, r: ReadResource)
    ensures GuardedResourceNodes(path, r) != []
    ensures GuardedResourceNodes(path, r) == [NodeInfo(path, r.description, path)] <==> r.children.None? || r.children.value == []
    ensures ResourceNodes(path, r).Some? ==> ResourceNodes(path, r).value == GuardedResourceNodes(path, r)
  {
    if r.children.Some? && r.children.value != [] {
      ResourceNodesFacts(path, r);
      var infos := GuardedResourceNodes(path, r);
      assert |infos[0].path| == |path + "/" + infos[0].text| > |path|;
    }
  }

  /**
   * getNodes: a failed read is an exception, and so is a null children set;
   * otherwise the nodes are created fresh for the sorted children, or for the
   * resource itself. Sorting the children before creating their nodes gives
   * the order that sorting the nodes by text gives, since a node's text is
   * its child's name.
   */
  method GetNodes(svc: Services, path: string) returns (nodes: Option<seq<Node>>)
    ensures nodes.None? <==> svc.readResource(path).None? || svc.readResource(path).value.children.None?
    ensures nodes.Some? ==> Shows(nodes.value, ResourceNodes(path, svc.readResource(path).value).value)
  {
    hide SortByName, Insert, CompareStrings;
    var response := svc.readResource(path);
    if response.None? {
      return None;
    }
    var result := response.value;
    if result.children.None? {
      return None;
    }
    var children: seq<Node> := [];
    if result.children.value != [] {
      var sorted := SortByName(result.children.value);
      for k := 0 to |sorted|
        invariant Shows(children, ChildNodes(path, sorted[..k]))
      {
        var child := new Node(sorted[k].0, sorted[k].1, path + "/" + sorted[k].0);
        children := children + [child];
      }
    } else {
      var parent := new Node(path, result.description, path);
      children := [parent];
    }
    nodes := Some(children);
  }

  // -------------------------------------------------------------------------
  // getPredefinedScripts: the scripts the REST loader's plugins declare.

  /** InitParams.getValueParam(name).getValue(): None when the parameter is missing or of another kind (the call throws). */
  function ValueOf(params: InitParams, name: string): (r: Option<string>)
    ensures r.Some? <==> name in params && params[name].ValueParam?
    ensures r.Some? ==> r.value == params[name].value
  {
    if name in params && params[name].ValueParam? then Some(params[name].value) else None
  }

  /** The names of a plugin's properties parameters: one script each. */
  function PropertiesNames(params: InitParams): set<string> {
    set n | n in params && params[n].PropertiesParam? :: params[n].name
  }

  /** A loader plugin whose scripts count as predefined. */
  predicate DeclaresScripts(p: ComponentPlugin) {
    p.initParams.Some? && p.pluginType == GroovyScript2RestLoaderPlugin && "workspace" in p.initParams.value
  }

  /**
   * The scripts one plugin declares, as "workspace::node/name"; None when a
   * "workspace" or (for a plugin with scripts) a "node" value is missing
   * or is not a value parameter, where the source throws.
   */
  function PluginScripts(p: ComponentPlugin): Option<set<string>> {
    if !DeclaresScripts(p) then Some({})
    else
      var params := p.initParams.value;
      var workspace := ValueOf(params, "workspace");
      if workspace.None? then None
      else if PropertiesNames(params) == {} then Some({})
      else
        var node := ValueOf(params, "node");
        if node.None? then None
        else Some(set n | n in PropertiesNames(params) :: workspace.value + "::" + node.value + "/" + n)
  }

  /** addPredefinedScripts over the plugins in order: the union of their scripts, None once one throws. */
  function PredefinedScripts(plugins: seq<ComponentPlugin>): Option<set<string>>
    decreases |plugins|
  {
    if plugins == [] then Some({})
    else
      var before := PredefinedScripts(plugins[..|plugins| - 1]);
      var last := PluginScripts(plugins[|plugins| - 1]);
      if before.None? || last.None? then None else Some(before.value + last.value)
  }

  /**
   * The predefined scripts are exactly those some plugin declares, and
   * computing them throws exactly when one plugin's parameters are broken.
   */
  lemma {:induction false} PredefinedScriptsExactly(plugins: seq<ComponentPlugin>)
    ensures PredefinedScripts(plugins).None? <==> exists i :: 0 <= i < |plugins| && PluginScripts(plugins[i]).None?
    ensures PredefinedScripts(plugins).Some? ==> forall key ::
      key in PredefinedScripts(plugins).value <==> exists i :: 0 <= i < |plugins| && key in PluginScripts(plugins[i]).value
    decreases |plugins|
  {
    if plugins != [] {
      var init := plugins[..|plugins| - 1];
      PredefinedScriptsExactly(init);
      assert forall i :: 0 <= i < |init| ==> init[i] == plugins[i];
      if PredefinedScripts(plugins).Some? {
        forall key | key in PredefinedScripts(plugins).value
          ensures exists i :: 0 <= i < |plugins| && key in PluginScripts(plugins[i]).value
        {
          if key !in PluginScripts(plugins[|plugins| - 1]).value {
            var i :| 0 <= i < |init| && key in PluginScripts(init[i]).value;
            assert key in PluginScripts(plugins[i]).value;
          }
        }
      }
    }
  }

  /** A plugin declaring scripts under a workspace and a node lists each properties parameter under them. */
  lemma PluginScriptsOf(p: ComponentPlugin, workspace: string, node: string, name: string)
    requires DeclaresScripts(p)
    requires ValueOf(p.initParams.value, "workspace") == Some(workspace)
    requires ValueOf(p.initParams.value, "node") == Some(node)
    requires name in p.initParams.value && p.initParams.value[name].PropertiesParam? && p.initParams.value[name].name == name
    ensures PluginScripts(p).Some?
    ensures workspace + "::" + node + "/" + name in PluginScripts(p).value
  {
    assert name in PropertiesNames(p.initParams.value);
  }

  // -------------------------------------------------------------------------
  // getIDEGroovyRestServices

  /** The script key the listing and the REST handler share. */
  function ScriptKey(workspace: string, scriptPath: string): string {
    workspace + "::" + scriptPath
  }

  /** The node for one saved script: its file name, its path, and IDE_REST_PATH + its key. */
  function ScriptNode(workspace: string, scriptPath: string): NodeInfo {
    NodeInfo(RestHandler.ScriptName(scriptPath), scriptPath, IdeRestPath + ScriptKey(workspace, scriptPath))
  }

  /** The inner loop: one workspace's scripts, the predefined ones skipped. */
  function ScriptNodes(workspace: string, scripts: seq<string>, predefined: set<string>): seq<NodeInfo>
    decreases |scripts|
  {
    if scripts == [] then []
    else
      var sp := scripts[|scripts| - 1];
      ScriptNodes(workspace, scripts[..|scripts| - 1], predefined) +
        (if ScriptKey(workspace, sp) in predefined then [] else [ScriptNode(workspace, sp)])
  }

  /** The nodes gathered so far, and whether a workspace's listing threw (which ends the loop). */
  datatype Gathered = Gathered(nodes: seq<NodeInfo>, failed: bool)

  /** The outer loop, over the workspaces in order, inside the try: a listing that throws keeps the nodes made before it. */
  function WorkspaceNodes(workspaces: seq<string>, list: string -> Option<seq<string>>, predefined: set<string>): Gathered
    decreases |workspaces|
  {
    if workspaces == [] then Gathered([], false)
    else
      var before := WorkspaceNodes(workspaces[..|workspaces| - 1], list, predefined);
      var ws := workspaces[|workspaces| - 1];
      if before.failed then before
      else if list(ws).None? then before.(failed := true)
      else Gathered(before.nodes + ScriptNodes(ws, list(ws).value, predefined), false)
  }

  /** The number of workspaces listed before the first one whose listing throws (all of them when none does). */
  function ListedCount(workspaces: seq<string>, list: string -> Option<seq<string>>): (n: nat)
    ensures n <= |workspaces|
    decreases |workspaces|
  {
    if workspaces == [] then 0
    else
      var m := ListedCount(workspaces[..|workspaces| - 1], list);
      if m < |workspaces| - 1 then m
      else if list(workspaces[|workspaces| - 1]).None? then m
      else |workspaces|
  }

  /** ListedCount is the index of the first workspace whose listing throws. */
  lemma {:induction false} ListedCountFirst(workspaces: seq<string>, list: string -> Option<seq<string>>)
    ensures forall k :: 0 <= k < ListedCount(workspaces, list) ==> list(workspaces[k]).Some?
    ensures ListedCount(workspaces, list) < |workspaces| ==> list(workspaces[ListedCount(workspaces, list)]).None?
    decreases |workspaces|
  {
    if workspaces != [] {
      var init := workspaces[..|workspaces| - 1];
      ListedCountFirst(init, list);
      assert forall k :: 0 <= k < |init| ==> init[k] == workspaces[k];
    }
  }

  /**
   * getIDEGroovyRestServices: nothing without a REST loader; an exception
   * when the predefined scripts cannot be computed (that call is outside the
   * try); otherwise every saved script that is not predefined, of the
   * workspaces listed before the first listing that throws.
   */
  function RestListing(svc: Services): Option<seq<NodeInfo>> {
    if svc.restScripts.None? then Some([])
    else
      var predefined := PredefinedScripts(svc.loaderPlugins);
      if predefined.None? then None
      else Some(WorkspaceNodes(svc.workspaces, svc.restScripts.value, predefined.value).nodes)
  }

  /** One workspace lists exactly its scripts whose key is not predefined. */
  lemma {:induction false} ScriptNodesExactly(workspace: string, scripts: seq<string>, predefined: set<string>)
    ensures forall x :: x in ScriptNodes(workspace, scripts, predefined) <==>
      exists j :: 0 <= j < |scripts| && ScriptKey(workspace, scripts[j]) !in predefined && x == ScriptNode(workspace, scripts[j])
    decreases |scripts|
  {
    if scripts != [] {
      var init := scripts[..|scripts| - 1];
      ScriptNodesExactly(workspace, init, predefined);
      assert forall j :: 0 <= j < |init| ==> init[j] == scripts[j];
      forall x | x in ScriptNodes(workspace, scripts, predefined)
        ensures exists j :: 0 <= j < |scripts| && ScriptKey(workspace, scripts[j]) !in predefined && x == ScriptNode(workspace, scripts[j])
      {
        if x !in ScriptNodes(workspace, init, predefined) {
          var j := |scripts| - 1;
          assert ScriptKey(workspace, scripts[j]) !in predefined && x == ScriptNode(workspace, scripts[j]);
        }
      }
    }
  }

  /** `x` is the node of a saved, not predefined, script of one of the workspaces. */
  predicate ListedScript(workspaces: seq<string>, list: string -> Option<seq<string>>, predefined: set<string>, x: NodeInfo) {
    exists k, j ::
      0 <= k < |workspaces| && list(workspaces[k]).Some? && 0 <= j < |list(workspaces[k]).value| &&
      ScriptKey(workspaces[k], list(workspaces[k]).value[j]) !in predefined &&
      x == ScriptNode(workspaces[k], list(workspaces[k]).value[j])
  }

  /** A script of the workspaces plus one listed workspace is one of the earlier workspaces' or one of that workspace's. */
  lemma ListedScriptSnoc(workspaces: seq<string>, ws: string, list: string -> Option<seq<string>>, predefined: set<string>, x: NodeInfo)
    requires list(ws).Some?
    ensures ListedScript(workspaces + [ws], list, predefined, x) <==>
      ListedScript(workspaces, list, predefined, x) || x in ScriptNodes(ws, list(ws).value, predefined)
  {
    var all := workspaces + [ws];
    ScriptNodesExactly(ws, list(ws).value, predefined);
    if ListedScript(all, list, predefined, x) {
      var k, j :| 0 <= k < |all| && list(all[k]).Some? && 0 <= j < |list(all[k]).value| &&
        ScriptKey(all[k], list(all[k]).value[j]) !in predefined && x == ScriptNode(all[k], list(all[k]).value[j]);
      if k < |workspaces| {
        assert all[k] == workspaces[k];
      }
    }
    if ListedScript(workspaces, list, predefined, x) {
      var k, j :| 0 <= k < |workspaces| && list(workspaces[k]).Some? && 0 <= j < |list(workspaces[k]).value| &&
        ScriptKey(workspaces[k], list(workspaces[k]).value[j]) !in predefined && x == ScriptNode(workspaces[k], list(workspaces[k]).value[j]);
      assert all[k] == workspaces[k];
    }
    if x in ScriptNodes(ws, list(ws).value, predefined) {
      var j :| 0 <= j < |list(ws).value| && ScriptKey(ws, list(ws).value[j]) !in predefined && x == ScriptNode(ws, list(ws).value[j]);
      assert all[|workspaces|] == ws;
    }
  }

  /**
   * The loop fails exactly when some workspace's listing throws, and the
   * REST listing holds exactly the saved scripts, whose key is not
   * predefined, of the workspaces before the first one that throws.
   */
  lemma {:induction false} WorkspaceNodesExactly(workspaces: seq<string>, list: string -> Option<seq<string>>, predefined: set<string>)
    ensures WorkspaceNodes(workspaces, list, predefined).failed <==> ListedCount(workspaces, list) < |workspaces|
    ensures forall x :: x in WorkspaceNodes(workspaces, list, predefined).nodes <==>
      ListedScript(workspaces[..ListedCount(workspaces, list)], list, predefined, x)
    decreases |workspaces|
  {
    if workspaces != [] {
      var init := workspaces[..|workspaces| - 1];
      var ws := workspaces[|workspaces| - 1];
      var m := ListedCount(init, list);
      WorkspaceNodesExactly(init, list, predefined);
      assert init[..m] == workspaces[..m];
      if m == |init| && list(ws).Some? {
        assert init[..m] == init && workspaces[..|workspaces|] == init + [ws];
        forall x
          ensures x in WorkspaceNodes(workspaces, list, predefined).nodes <==> ListedScript(init + [ws], list, predefined, x)
        {
          ListedScriptSnoc(init, ws, list, predefined, x);
        }
      }
    }
  }

  /**
   * A listed script's path parses back, in the REST handler, into its
   * workspace and its path without the leading '/', when the workspace has
   * no ':', the path starts with '/' and has no "::", and the key holds no
   * second IDE_REST_PATH.
   */
  lemma ListedScriptSelectsIt(workspace: string, scriptPath: string)
    requires ':' !in workspace && "/" <= scriptPath && !Contains(scriptPath, "::")
    requires !Contains(ScriptKey(workspace, scriptPath), IdeRestPath)
    ensures RestHandler.ParseKey(ScriptNode(workspace, scriptPath).path) == Some((workspace, scriptPath[1..]))
  {
    RestHandler.KeyRoundTrip(workspace, scriptPath);
  }

  /** `nodes` show `infos`, one for one. */
  predicate Shows(nodes: seq<Node>, infos: seq<NodeInfo>)
    reads set n | n in nodes
  {
    |nodes| == |infos| && forall i :: 0 <= i < |nodes| ==> InfoOf(nodes[i]) == infos[i]
  }

  /** The inner loop of getIDEGroovyRestServices, for one workspace. */
  method ListScripts(workspace: string, scripts: seq<string>, predefined: set<string>) returns (nodes: seq<Node>)
    ensures Shows(nodes, ScriptNodes(workspace, scripts, predefined))
  {
    nodes := [];
    ghost var infos: seq<NodeInfo> := [];
    for j := 0 to |scripts|
      invariant Shows(nodes, infos)
      invariant infos == ScriptNodes(workspace, scripts[..j], predefined)
    {
      assert scripts[..j + 1][..j] == scripts[..j];
      var key := workspace + "::" + scripts[j];
      if key !in predefined {
        var node := new Node(RestHandler.ScriptName(scripts[j]), scripts[j], IdeRestPath + key);
        nodes := nodes + [node];
        infos := infos + [ScriptNode(workspace, scripts[j])];
      }
    }
    assert scripts[..|scripts|] == scripts;
  }

  /**
   * The listing as the source computes it: the predefined scripts first
   * (an exception leaves the caller), then a loop over the workspaces that
   * stops, keeping what it has, at the first listing that throws.
   */
  method GetRestServices(svc: Services) returns (nodes: Option<seq<Node>>)
    ensures nodes.None? <==> RestListing(svc).None?
    ensures nodes.Some? ==> Shows(nodes.value, RestListing(svc).value)
  {
    if svc.restScripts.None? {
      return Some([]);
    }
    var predefined := PredefinedScripts(svc.loaderPlugins);
    if predefined.None? {
      return None;
    }
    var list := svc.restScripts.value;
    var found: seq<Node> := [];
    ghost var infos: seq<NodeInfo> := [];
    for k := 0 to |svc.workspaces|
      invariant Shows(found, infos)
      invariant WorkspaceNodes(svc.workspaces[..k], list, predefined.value) == Gathered(infos, false)
    {
      hide WorkspaceNodes, ScriptNodes, PredefinedScripts;
      var ws := svc.workspaces[k];
      var scripts := list(ws);
      WorkspaceStep(svc.workspaces, list, predefined.value, k, infos);
      if scripts.None? {
        WorkspaceFailureSticks(svc.workspaces, list, predefined.value, k + 1);
        return Some(found);
      }
      var more := ListScripts(ws, scripts.value, predefined.value);
      found := found + more;
      infos := infos + ScriptNodes(ws, scripts.value, predefined.value);
    }
    assert svc.workspaces[..|svc.workspaces|] == svc.workspaces;
    nodes := Some(found);
  }

  /** One more workspace: its listing fails the loop when it throws, and otherwise adds its script nodes. */
  lemma WorkspaceStep(workspaces: seq<string>, list: string -> Option<seq<string>>, predefined: set<string>, k: nat, infos: seq<NodeInfo>)
    requires k < |workspaces| && WorkspaceNodes(workspaces[..k], list, predefined) == Gathered(infos, false)
    ensures list(workspaces[k]).None? ==> WorkspaceNodes(workspaces[..k + 1], list, predefined) == Gathered(infos, true)
    ensures list(workspaces[k]).Some? ==>
      WorkspaceNodes(workspaces[..k + 1], list, predefined) == Gathered(infos + ScriptNodes(workspaces[k], list(workspaces[k]).value, predefined), false)
  {
    assert workspaces[..k + 1][..k] == workspaces[..k];
  }

  /** Once a workspace's listing has thrown, the later workspaces change nothing. */
  lemma {:induction false} WorkspaceFailureSticks(workspaces: seq<string>, list: string -> Option<seq<string>>, predefined: set<string>, k: nat)
    requires k <= |workspaces| && WorkspaceNodes(workspaces[..k], list, predefined).failed
    ensures WorkspaceNodes(workspaces, list, predefined) == WorkspaceNodes(workspaces[..k], list, predefined)
    decreases |workspaces| - k
  {
    if k < |workspaces| {
      assert workspaces[..k + 1][..k] == workspaces[..k];
      WorkspaceFailureSticks(workspaces, list, predefined, k + 1);
    } else {
      assert workspaces[..k] == workspaces;
    }
  }

  // -------------------------------------------------------------------------
  // getGadgets

  /** A gadget offered for export: a local one, or one whose URL points into the repository. */
  predicate Exportable(g: Gadget) {
    g.isLocal || Contains(g.url, "jcr/repository")
  }

  function GadgetNode(g: Gadget): NodeInfo {
    NodeInfo(g.title, g.description, GadgetPath + g.name)
  }

  /** The loop over the registered gadgets, in order. */
  function GadgetNodes(gs: seq<Gadget>): seq<NodeInfo>
    decreases |gs|
  {
    if gs == [] then []
    else
      var g := gs[|gs| - 1];
      GadgetNodes(gs[..|gs| - 1]) + (if Exportable(g) then [GadgetNode(g)] else [])
  }

  /** getGadgets: nothing without a gadget registry, nor when getAllGadgets throws (the exception is caught and logged). */
  function GadgetListing(svc: Services): seq<NodeInfo> {
    if svc.gadgets.None? || svc.gadgets.value.allGadgets.None? then [] else GadgetNodes(svc.gadgets.value.allGadgets.value)
  }

  /** The gadget listing holds exactly the exportable gadgets, never more of them than there are. */
  lemma {:induction false} GadgetNodesExactly(gs: seq<Gadget>)
    ensures forall x :: x in GadgetNodes(gs) <==> exists i :: 0 <= i < |gs| && Exportable(gs[i]) && x == GadgetNode(gs[i])
    ensures |GadgetNodes(gs)| <= |gs|
    decreases |gs|
  {
    if gs != [] {
      var init := gs[..|gs| - 1];
      GadgetNodesExactly(init);
      assert forall i :: 0 <= i < |init| ==> init[i] == gs[i];
      forall x | x in GadgetNodes(gs)
        ensures exists i :: 0 <= i < |gs| && Exportable(gs[i]) && x == GadgetNode(gs[i])
      {
        if x !in GadgetNodes(init) {
          assert Exportable(gs[|gs| - 1]) && x == GadgetNode(gs[|gs| - 1]);
        }
      }
    }
  }

  /** A listed gadget's path selects it again: the gadgets handler recovers its name, unless the name itself holds GADGET_PATH. */
  lemma GadgetPathRoundTrip(g: Gadget)
    requires !Contains(g.name, GadgetPath)
    ensures GadgetsHandler.SelectedGadgetName(GadgetNode(g).path) == g.name
  {
    ReplaceLeading(GadgetPath, g.name, "");
    ReplaceAbsent(g.name, GadgetPath, "");
    assert "" + g.name == g.name;
  }

  method GetGadgets(svc: Services) returns (nodes: seq<Node>)
    ensures Shows(nodes, GadgetListing(svc))
  {
    nodes := [];
    if svc.gadgets.None? {
      return;
    }
    var all := svc.gadgets.value.allGadgets;
    if all.None? {
      return;
    }
    var gs := all.value;
    ghost var infos: seq<NodeInfo> := [];
    for k := 0 to |gs|
      invariant Shows(nodes, infos)
      invariant infos == GadgetNodes(gs[..k])
    {
      assert gs[..k + 1][..k] == gs[..k];
      if gs[k].isLocal || Contains(gs[k].url, "jcr/repository") {
        var node := new Node(gs[k].title, gs[k].description, GadgetPath + gs[k].name);
        nodes := nodes + [node];
        infos := infos + [GadgetNode(gs[k])];
      }
    }
    assert gs[..|gs|] == gs;
  }
}
