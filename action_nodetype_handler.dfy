/**
 * The action node-type handler (ActionNodeTypeConfigurationHandler,
 * deprecated and not registered by the generator): exports the selected
 * action types, copies each exported file under the JCR configuration
 * directory, and registers every copy with the repository service through
 * one "add.nodetype" plugin.
 */
module ActionNodeTypeHandler {
  import opened Wrappers
  import opened Strings
  import opened KernelXml
  import opened Archive
  import opened Paths
  import opened Platform
  import opened Utils
  import opened HandlerBase

  /** ACTION_CONFIGURATION_NAME */
  const ActionConfigurationName := "jcr-actions-component-plugins-configuration.xml"

  /** The JCR configuration directory below the WAR root. */
  const JcrTail := ConfDir(Placeholder)

  /** JCR_CONFIGURATION_LOCATION, cut before its last separator so that proofs can split around it. */
  const JcrDir := "WEB-INF" + JcrTail

  /** JCR_CONFIGURATION_LOCATION */
  const JcrConfigurationLocation := JcrDir + "/"

  /** The one import this handler declares. */
  const ConfigurationPaths := [WarForm(JcrConfigurationLocation) + ActionConfigurationName]

  /** The export filter for a selected action path: the action type's name. */
  const FilterPrefix := EcmActionPath + "/"

  /** The constructor. */
  method NewActionNodeTypeHandler() returns (h: Handler)
    ensures fresh(h)
    ensures h.kind == ActionNodeTypes && h.tempFiles == [] && h.configurationPaths == ConfigurationPaths
  {
    h := new Handler(ActionNodeTypes, ConfigurationPaths);
  }

  /** Where an exported entry is copied, before the writer's renaming. */
  function ActionLocation(e: Entry): string {
    JcrConfigurationLocation + e.name
  }

  /** The value registered for an exported entry: its location in war: form, name substituted, "/ecmadmin" removed. */
  function ActionValue(ext: string, e: Entry): string {
    ReplaceAll(Substitute(WarForm(ActionLocation(e)), ext), "/ecmadmin", "")
  }

  /** The copy of an exported entry: its bytes at the stream writer's name for its location. */
  function ActionCopy(ext: string, e: Entry): Entry {
    Entry(StreamEntryName(ActionLocation(e), ext), e.content)
  }

  function ActionValues(ext: string, es: seq<Entry>): (r: seq<string>)
    ensures |r| == |es| && forall i :: 0 <= i < |es| ==> r[i] == ActionValue(ext, es[i])
  {
    seq(|es|, i requires 0 <= i < |es| => ActionValue(ext, es[i]))
  }

  function ActionCopies(ext: string, es: seq<Entry>): (r: seq<Entry>)
    ensures |r| == |es| && forall i :: 0 <= i < |es| ==> r[i] == ActionCopy(ext, es[i])
  {
    seq(|es|, i requires 0 <= i < |es| => ActionCopy(ext, es[i]))
  }

  /** The "add.nodetype" plugin of the repository service, its values parameter filled with `values`. */
  function ActionPlugin(values: seq<string>): ComponentPlugin {
    CreateComponentPlugin("add.nodetype", AddNodeTypePlugin, "addPlugin", None,
      [ValuesParam("autoCreatedInNewRepository", values)])
  }

  /**
   * writeData: nothing selected gives false; a failed export escapes (the
   * temporary files are cleared on the way out); otherwise every exported
   * entry is copied and registered, and the configuration is written.
   */
  function ActionRun(svc: Services, ext: string, selection: seq<string>): Run {
    var filtered := Filtered(selection, EcmActionPath);
    if filtered == [] then Declined
    else
      var zip := ExportOf(svc, EcmActionPath, StripAll(filtered, FilterPrefix));
      if zip.None? then Run([], Done(Threw))
      else
        Run(ActionCopies(ext, zip.value), Configure(JcrConfigurationLocation + ActionConfigurationName,
          PluginDocument([SinglePluginGroup(RepositoryService, ActionPlugin(ActionValues(ext, zip.value)))])))
  }

  /** The run declines an empty selection, escapes on a failed export, and otherwise writes its configuration. */
  lemma RunOutcomes(svc: Services, ext: string, selection: seq<string>)
    ensures var filtered := Filtered(selection, EcmActionPath);
      var run := ActionRun(svc, ext, selection);
      (filtered == [] <==> run == Declined) &&
      (filtered != [] ==> (run.finish.Configure? <==> ExportOf(svc, EcmActionPath, StripAll(filtered, FilterPrefix)).Some?)) &&
      (filtered != [] && !run.finish.Configure? ==> run == Run([], Done(Threw)))
  {
  }

  /**
   * A run that gets through its export configures one "add.nodetype" plugin
   * of the repository service whose only parameter lists one value per
   * exported entry, in order, and copies those entries in the same order.
   */
  lemma PluginShape(svc: Services, ext: string, selection: seq<string>)
    requires ActionRun(svc, ext, selection).finish.Configure?
    ensures var run := ActionRun(svc, ext, selection);
      var zip := ExportOf(svc, EcmActionPath, StripAll(Filtered(selection, EcmActionPath), FilterPrefix)).value;
      var d := run.finish.document;
      |d.externalComponentPlugins| == 1 &&
      d.externalComponentPlugins[0] == ExternalComponentPlugins(Some(RepositoryService), Some([ActionPlugin(ActionValues(ext, zip))])) &&
      var p := ActionPlugin(ActionValues(ext, zip));
      p.name == "add.nodetype" && p.pluginType == AddNodeTypePlugin && p.setMethod == "addPlugin" &&
      p.initParams == Some(map["autoCreatedInNewRepository" := ValuesParam("autoCreatedInNewRepository", ActionValues(ext, zip))]) &&
      |ActionValues(ext, zip)| == |zip| == |run.writes| &&
      forall i :: 0 <= i < |zip| ==> run.writes[i] == ActionCopy(ext, zip[i]) && ActionValues(ext, zip)[i] == ActionValue(ext, zip[i])
  {
    var zip := ExportOf(svc, EcmActionPath, StripAll(Filtered(selection, EcmActionPath), FilterPrefix)).value;
    SingleParam(ValuesParam("autoCreatedInNewRepository", ActionValues(ext, zip)));
  }

  // -------------------------------------------------------------------------
  // A registered value is the import of the copy it registers.

  /** "/ecmadmin" removal: what the stream writer and the registered values both do. */
  function DropEcmadmin(s: string): string {
    ReplaceAll(s, "/ecmadmin", "")
  }

  /**
   * An extension name usable here: no '/', and not starting with
   * "ecmadmin", so that no "/ecmadmin" can start at the separator before it.
   */
  predicate PlainName(ext: string) {
    '/' !in ext && !("ecmadmin" <= ext)
  }

  /** The JCR directory below the WAR root, name substituted. */
  function ConfDir(ext: string): string {
    "/" + ("conf" + ("/" + (ext + "/jcr")))
  }

  /** The JCR directory keeps its text when "/ecmadmin" is removed: it has no 'a'. */
  lemma JcrDirHasNoEcmadmin()
    ensures DropEcmadmin(JcrDir) == JcrDir
  {
    assert 'a' !in Placeholder;
    ReplaceMissingChar(JcrDir, "/ecmadmin", "", 'a');
  }

  /** The JCR directory below the WAR root, placeholder substituted. */
  lemma JcrTailSubstituted(ext: string)
    ensures Substitute(JcrTail, ext) == ConfDir(ext)
  {
    assert 'u' in Placeholder && 'f' !in Placeholder && Placeholder[0] == 'c';
    ReplaceLeading(Placeholder, "/jcr", ext);
    ReplaceMissingChar("/jcr", Placeholder, ext, 'u');
    ReplaceKeepsHead("/", Placeholder + "/jcr", Placeholder, ext);
    ReplaceSplit("conf", "/" + (Placeholder + "/jcr"), Placeholder, ext);
    ReplaceMissingChar("conf", Placeholder, ext, 'u');
    ReplaceKeepsHead("/", "conf" + ("/" + (Placeholder + "/jcr")), Placeholder, ext);
  }

  /** The JCR directory, name substituted. */
  lemma JcrDirSubstituted(ext: string)
    ensures Substitute(JcrDir, ext) == "WEB-INF" + ConfDir(ext)
  {
    SubstituteKeepsHead("WEB-INF", JcrTail, ext);
    JcrTailSubstituted(ext);
  }

  /** The JCR directory in war: form. */
  lemma JcrDirWarForm()
    ensures WarForm(JcrDir) == "war:" + JcrTail
  {
    assert 'W' !in Placeholder;
    ReplaceLeading("WEB-INF", JcrTail, "war:");
    ReplaceMissingChar(JcrTail, "WEB-INF", "war:", 'W');
  }

  /** The JCR directory in war: form, name substituted. */
  lemma JcrDirImportForm(ext: string)
    ensures Substitute(WarForm(JcrDir), ext) == "war:" + ConfDir(ext)
  {
    JcrDirWarForm();
    SubstituteKeepsHead("war:", JcrTail, ext);
    JcrTailSubstituted(ext);
  }

  /** Prefixing one character to both sides keeps the prefix relation. */
  lemma ConsPrefix(c: char, p: string, s: string)
    ensures ([c] + p <= [c] + s) == (p <= s)
  {
    assert ([c] + p)[1..] == p && ([c] + s)[1..] == s;
    if p <= s {
      assert [c] + s == [c] + p + s[|p|..];
    }
  }

  /** A "/" followed by text not starting with "ecmadmin" is not where "/ecmadmin" starts. */
  lemma SlashNotEcmadmin(s: string)
    requires !("ecmadmin" <= s)
    ensures DropEcmadmin("/" + s) == "/" + DropEcmadmin(s)
  {
    ConsPrefix('/', "ecmadmin", s);
    assert "/ecmadmin" == ['/'] + "ecmadmin" && "/" + s == ['/'] + s;
    assert ("/" + s)[1..] == s;
  }

  /** A plain name followed by "/jcr" does not start with "ecmadmin". */
  lemma PlainNameThenJcr(ext: string)
    requires PlainName(ext)
    ensures !("ecmadmin" <= ext + "/jcr")
  {
    var s := ext + "/jcr";
    if |ext| < 8 {
      assert s[|ext|] == '/' && "ecmadmin"[|ext|] != '/';
    } else {
      assert s[..8] == ext[..8];
    }
  }

  /** The name and "/jcr" hold no "/ecmadmin". */
  lemma NameThenJcrKept(ext: string)
    requires PlainName(ext)
    ensures DropEcmadmin("/" + (ext + "/jcr")) == "/" + (ext + "/jcr")
  {
    ReplaceKeepsHead(ext, "/jcr", "/ecmadmin", "");
    ReplaceMissingChar("/jcr", "/ecmadmin", "", 'a');
    PlainNameThenJcr(ext);
    SlashNotEcmadmin(ext + "/jcr");
  }

  /** The substituted war: directory holds no "/ecmadmin" when the extension name is plain. */
  lemma ImportDirHasNoEcmadmin(ext: string)
    requires PlainName(ext)
    ensures DropEcmadmin("war:" + ConfDir(ext)) == "war:" + ConfDir(ext)
  {
    var named := "/" + (ext + "/jcr");
    NameThenJcrKept(ext);
    ReplaceKeepsHead("conf", named, "/ecmadmin", "");
    assert ("conf" + named)[0] == 'c';
    SlashNotEcmadmin("conf" + named);
    ReplaceKeepsHead("war:", "/" + ("conf" + named), "/ecmadmin", "");
  }

  /** The name the stream writer gives a copy: the directory substituted, then the rest with "/ecmadmin" removed. */
  lemma CopyName(ext: string, rest: string)
    requires !Contains(DropEcmadmin("/" + rest), Placeholder)
    ensures StreamEntryName(JcrDir + ("/" + rest), ext) == "WEB-INF" + ConfDir(ext) + DropEcmadmin("/" + rest)
  {
    var t := DropEcmadmin("/" + rest);
    assert JcrDir[|JcrDir| - 1] == 'r';
    assert 'r' !in "/ecmadmin" && 'r' !in Placeholder;
    ReplaceSplit(JcrDir, "/" + rest, "/ecmadmin", "");
    JcrDirHasNoEcmadmin();
    ReplaceSplit(JcrDir, t, Placeholder, ext);
    JcrDirSubstituted(ext);
    ReplaceAbsent(t, Placeholder, ext);
    var w := "WEB-INF" + ConfDir(ext) + t;
    assert w[0] == 'W';
  }

  /** The rest of a location, after its directory, in war: form and substituted: unchanged. */
  lemma RestUnchanged(ext: string, rest: string)
    requires !Contains(rest, "WEB-INF") && !Contains(rest, Placeholder)
    ensures WarForm("/" + rest) == "/" + rest
    ensures Substitute("/" + rest, ext) == "/" + rest
  {
    ReplaceKeepsHead("/", rest, "WEB-INF", "war:");
    ReplaceAbsent(rest, "WEB-INF", "war:");
    ReplaceKeepsHead("/", rest, Placeholder, ext);
    ReplaceAbsent(rest, Placeholder, ext);
  }

  /** The value registered for a copy: the war: directory, then the rest with "/ecmadmin" removed. */
  lemma RegisteredValue(ext: string, rest: string)
    requires PlainName(ext) && !Contains(rest, "WEB-INF") && !Contains(rest, Placeholder)
    ensures DropEcmadmin(Substitute(WarForm(JcrDir + ("/" + rest)), ext)) == "war:" + ConfDir(ext) + DropEcmadmin("/" + rest)
  {
    assert JcrDir[|JcrDir| - 1] == 'r';
    assert 'r' !in "WEB-INF" && 'r' !in Placeholder && 'r' !in "/ecmadmin";
    RestUnchanged(ext, rest);
    ReplaceSplit(JcrDir, "/" + rest, "WEB-INF", "war:");
    JcrDirWarForm();
    var head := "war:" + JcrTail;
    assert head[|head| - 1] == 'r';
    ReplaceSplit(head, "/" + rest, Placeholder, ext);
    JcrDirImportForm(ext);
    var a := "war:" + ConfDir(ext);
    assert a[|a| - 1] == 'r';
    ReplaceSplit(a, "/" + rest, "/ecmadmin", "");
    ImportDirHasNoEcmadmin(ext);
  }

  /**
   * For a plain extension name and an exported entry whose name mentions
   * neither "WEB-INF" nor the placeholder (even once "/ecmadmin" is
   * removed), the value registered for the entry is the war: import of the
   * entry the stream writer copies it to.
   */
  lemma ValueImportsCopy(ext: string, e: Entry)
    requires PlainName(ext) && !Contains(e.name, "WEB-INF") && !Contains(e.name, Placeholder)
    requires !Contains(DropEcmadmin("/" + e.name), Placeholder)
    ensures Imports(ActionValue(ext, e), ActionCopy(ext, e).name)
  {
    hide ReplaceAll, Substitute, WarForm, StreamEntryName, WrittenName, ConfDir;
    assert ActionLocation(e) == JcrDir + ("/" + e.name);
    CopyName(ext, e.name);
    RegisteredValue(ext, e.name);
    var t := DropEcmadmin("/" + e.name);
    var written := "WEB-INF" + (ConfDir(ext) + t);
    assert ActionCopy(ext, e).name == written;
    assert "WEB-INF" <= written && written[|"WEB-INF"|..] == ConfDir(ext) + t;
    assert ActionValue(ext, e) == "war:" + ConfDir(ext) + t;
    assert "war:" + ConfDir(ext) + t == "war:" + (ConfDir(ext) + t);
  }

  /** The declared import, once substituted, is the war: form of the configuration entry the run writes. */
  lemma ConfigurationImported(ext: string)
    ensures Imports(Substitute(ConfigurationPaths[0], ext), WrittenName(JcrConfigurationLocation + ActionConfigurationName, ext))
  {
    assert JcrConfigurationLocation == "WEB-INF" + (JcrTail + "/");
    assert 'W' !in Placeholder;
    ImportNamesEntry(JcrTail + "/", ActionConfigurationName, ext);
  }

  // -------------------------------------------------------------------------
  // The methods.

  /** The entry loop: each exported entry's value is registered, then the entry is copied. */
  method CopyActions(zos: ZipOutput, ext: string, es: seq<Entry>) returns (values: seq<string>)
    requires zos.Valid()
    modifies zos
    ensures zos.Valid()
    ensures values == ActionValues(ext, es)
    ensures zos.entries == PutAll(old(zos.entries), ActionCopies(ext, es))
  {
    hide ReplaceAll, Substitute, WarForm, StreamEntryName, WrittenName, ActionValues, ActionCopies;
    values := [];
    for j := 0 to |es|
      invariant zos.Valid()
      invariant values == ActionValues(ext, es[..j])
      invariant zos.entries == PutAll(old(zos.entries), ActionCopies(ext, es[..j]))
    {
      var location := JcrConfigurationLocation + es[j].name;
      var path := ReplaceAll(Substitute(WarForm(location), ext), "/ecmadmin", "");
      assert ActionValues(ext, es[..j + 1]) == ActionValues(ext, es[..j]) + [ActionValue(ext, es[j])];
      values := values + [path];
      assert ActionCopies(ext, es[..j + 1]) == ActionCopies(ext, es[..j]) + [ActionCopy(ext, es[j])];
      PutAllSnoc(old(zos.entries), ActionCopies(ext, es[..j]), ActionCopy(ext, es[j]));
      WriteStream(zos, location, ext, es[j].content, false);
    }
    assert es[..|es|] == es;
  }

  /** writeData */
  method WriteData(h: Handler, zos: ZipOutput, svc: Services, ext: string, selection: seq<string>) returns (outcome: Outcome)
    requires zos.Valid()
    modifies h, zos
    ensures zos.Valid()
    ensures zos.entries == Apply(old(zos.entries), ext, ActionRun(svc, ext, selection))
    ensures outcome == ResultOf(old(zos.entries), ext, ActionRun(svc, ext, selection))
    ensures h.tempFiles == (if Filtered(selection, EcmActionPath) == [] then old(h.tempFiles) else [])
    ensures h.configurationPaths == old(h.configurationPaths)
  {
    var filtered := FilterSelectedResources(selection, EcmActionPath);
    if filtered == [] {
      DeclinedLeavesArchive(zos.entries, ext);
      return Returned(false);
    }
    var filters := ExportFilters(filtered, FilterPrefix);
    var zip := Export(h, svc, EcmActionPath, filters);
    if zip.None? {
      ClearTempFiles(h);
      return Threw;
    }
    var values := CopyActions(zos, ext, zip.value);
    ClearTempFiles(h);
    var group := SinglePluginGroup(RepositoryService, ActionPlugin(values));
    ApplyAfterWrites(old(zos.entries), ext, ActionCopies(ext, zip.value), JcrConfigurationLocation + ActionConfigurationName, PluginDocument([group]));
    var ok := WritePlugins(zos, JcrConfigurationLocation + ActionConfigurationName, ext, [group]);
    outcome := Returned(ok);
  }
}
