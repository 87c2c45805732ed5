/**
 * How the extension generator (ExtensionGeneratorImpl) assembles its
 * archives from what the registered handlers did: the handlers' turns, in
 * order, fill the WAR; configuration.xml imports the configuration paths of
 * every handler whose writeData returned true; web.xml closes the WAR; the
 * WAR and the activation JAR are then packaged. A turn is given here as a
 * value, so the facts below hold for whatever the handlers did, provided
 * each turn has the shape its handler guarantees.
 */
module WarAssembly {
  import opened Strings
  import KernelXml
  import opened Archive
  import opened Paths
  import opened Platform
  import opened Utils
  import opened HandlerBase
  import NodeTypeHandler
  import RegistryHandler
  import MopSiteHandler
  import ScriptsHandler
  import MetadataTemplatesHandler
  import NodeTypeTemplatesHandler
  import SiteContentsHandler
  import ClvTemplatesHandler
  import ViewHandler
  import RestHandler
  import GadgetsHandler

  const WebXmlLocation := "WEB-INF/web.xml"
  const ConfigurationXmlLocation := "WEB-INF/conf/configuration.xml"
  /** Where the activation JAR holds its configuration. */
  const ActivationEntry := "conf/configuration.xml"
  /** Where the Maven project holds the activation JAR's files and the WAR's files. */
  const ActivationRoot := "config/src/main/resources"
  const WarRoot := "war/src/main/webapp"

  // -------------------------------------------------------------------------
  // The registered handlers.

  /**
   * The handlers the generator's constructor registers, in order; the site
   * handler is registered once per site type, the action handler not at all.
   */
  const HandlerKinds: seq<Kind> := [
    NodeTypes, ApplicationRegistry, MopSite("portal"), MopSite("group"), MopSite("user"),
    Scripts, Drives, JcrQuery, MetadataTemplates, Kind.NodeTypeTemplates, SiteContents,
    ClvTemplates, Taxonomy, SiteExplorerTemplates, SiteExplorerView, RestServices, Gadgets]

  /** The handlers whose source is not part of this model: what they do is a platform parameter. */
  predicate Opaque(k: Kind) {
    k.JcrQuery? || k.Taxonomy? || k.SiteExplorerTemplates?
  }

  /** The handlers whose configuration paths never change. */
  predicate Fixed(k: Kind) {
    !Opaque(k) && !k.Drives?
  }

  /** Handlers that, when they return true, have just written their one configuration file. */
  predicate Configures(k: Kind) {
    Fixed(k) && !k.Gadgets? && !k.ActionNodeTypes?
  }

  /** The configuration paths a handler is built with (getConfigurationPaths before any run). */
  function InitialPaths(k: Kind): seq<string> {
    match k
    case NodeTypes => NodeTypeHandler.ConfigurationPaths
    case ApplicationRegistry => RegistryHandler.ConfigurationPaths
    case MopSite(t) => [WarForm(MopSiteHandler.SitesConfigurationLocation) + t + MopSiteHandler.SitesConfigurationName]
    case Scripts => ScriptsHandler.ConfigurationPaths
    case MetadataTemplates => MetadataTemplatesHandler.ConfigurationPaths
    case NodeTypeTemplates => NodeTypeTemplatesHandler.ConfigurationPaths
    case SiteContents => SiteContentsHandler.ConfigurationPaths
    case ClvTemplates => ClvTemplatesHandler.ConfigurationPaths
    case SiteExplorerView => ViewHandler.ConfigurationPaths
    case RestServices => RestHandler.ConfigurationPaths
    case Gadgets => GadgetsHandler.ConfigurationPaths
    case _ => []
  }

  /** The configuration file a handler of the `Configures` kind writes. */
  function ConfigurationFile(k: Kind): string {
    match k
    case NodeTypes => NodeTypeHandler.JcrConfigurationLocation + NodeTypeHandler.JcrConfigurationName
    case ApplicationRegistry => RegistryHandler.ConfigurationLocation
    case MopSite(t) => MopSiteHandler.SitesConfigurationFile(t)
    case Scripts => DmsLocation + ScriptsHandler.ScriptsConfigurationName
    case MetadataTemplates => DmsLocation + MetadataTemplatesHandler.MetadataSettings.configurationName
    case NodeTypeTemplates => DmsLocation + NodeTypeTemplatesHandler.NodeTypeSettings.configurationName
    case SiteContents => SiteContentsHandler.WcmContentLocation + SiteContentsHandler.WcmConfigurationName
    case ClvTemplates => DmsLocation + ClvTemplatesHandler.ClvSettings.configurationName
    case SiteExplorerView => ViewHandler.ViewFullPath
    case RestServices => RestHandler.RestLocation + "/" + RestHandler.RestConfigurationName
    case _ => []
  }

  /** A handler's declared path, substituted, is the war: import of the configuration file it writes. */
  lemma DeclaredPathImportsFile(k: Kind, ext: string)
    requires Configures(k) && (k.MopSite? ==> 'W' !in k.siteType)
    ensures |InitialPaths(k)| == 1
    ensures Imports(Substitute(InitialPaths(k)[0], ext), WrittenName(ConfigurationFile(k), ext))
  {
    match k
    case NodeTypes => NodeTypeHandler.ConfigurationImported(ext);
    case ApplicationRegistry => RegistryHandler.ConfigurationImported(ext);
    case MopSite(t) => MopSiteHandler.ConfigurationImported(t, ext);
    case Scripts => ScriptsHandler.ConfigurationImported(ext);
    case MetadataTemplates => MetadataTemplatesHandler.ConfigurationImported(ext);
    case NodeTypeTemplates => NodeTypeTemplatesHandler.ConfigurationImported(ext);
    case SiteContents => SiteContentsHandler.ConfigurationImported(ext);
    case ClvTemplates => ClvTemplatesHandler.ConfigurationImported(ext);
    case SiteExplorerView => ViewHandler.ConfigurationImported(ext);
    case RestServices => RestHandler.ConfigurationImported(ext);
    case _ => assert false;
  }

  /** A position for each registered kind. */
  function KindIndex(k: Kind): nat {
    match k
    case NodeTypes => 0
    case ApplicationRegistry => 1
    case MopSite(t) => if t == "portal" then 2 else if t == "group" then 3 else 4
    case Scripts => 5
    case Drives => 6
    case JcrQuery => 7
    case MetadataTemplates => 8
    case NodeTypeTemplates => 9
    case SiteContents => 10
    case ClvTemplates => 11
    case Taxonomy => 12
    case SiteExplorerTemplates => 13
    case SiteExplorerView => 14
    case RestServices => 15
    case Gadgets => 16
    case ActionNodeTypes => 17
  }

  /** No kind is registered twice, and no registered site type holds a 'W'. */
  lemma KindsDistinct()
    ensures forall i :: 0 <= i < |HandlerKinds| ==> KindIndex(HandlerKinds[i]) == i
    ensures forall i, j :: 0 <= i < j < |HandlerKinds| ==> HandlerKinds[i] != HandlerKinds[j]
    ensures forall i :: 0 <= i < |HandlerKinds| && HandlerKinds[i].MopSite? ==> 'W' !in HandlerKinds[i].siteType
  {
    forall i | 0 <= i < |HandlerKinds|
      ensures KindIndex(HandlerKinds[i]) == i
    {
    }
  }

  /** The action handler is not registered. */
  lemma RegisteredKind(i: nat)
    requires i < |HandlerKinds|
    ensures !HandlerKinds[i].ActionNodeTypes?
  {
    KindsDistinct();
    assert KindIndex(HandlerKinds[i]) == i;
  }

  /** Each handler's paths, for the handlers whose paths never change, are the ones it was built with. */
  predicate FixedPaths(paths: seq<seq<string>>) {
    |paths| == |HandlerKinds| &&
    forall i :: 0 <= i < |HandlerKinds| && Fixed(HandlerKinds[i]) ==> paths[i] == InitialPaths(HandlerKinds[i])
  }

  // -------------------------------------------------------------------------
  // Turns.

  /** One handler's turn: what its writeData did, and the configuration paths it reports afterwards. */
  datatype Turn = Turn(run: Run, paths: seq<string>)

  /**
   * What each handler guarantees about its turn: a configuring handler keeps
   * its paths and returns true only through its configuration file; the
   * drives handler returns true only after copying the file its one path
   * imports; the gadgets handler reports no path.
   */
  predicate Shaped(k: Kind, t: Turn, ext: string) {
    if Opaque(k) then true
    else if k.Drives? then
      t.run.finish.Done? &&
      (t.run.finish.outcome == Returned(true) ==>
        |t.paths| == 1 && t.run.writes != [] && Imports(Substitute(t.paths[0], ext), t.run.writes[0].name))
    else if k.Gadgets? then t.paths == []
    else
      t.paths == InitialPaths(k) &&
      (t.run.finish.Configure? ==> t.run.finish.entryName == ConfigurationFile(k)) &&
      (t.run.finish.Done? ==> t.run.finish.outcome != Returned(true))
  }

  /** configurationPaths with the extension name substituted in each. */
  function SubstituteEach(paths: seq<string>, ext: string): (r: seq<string>)
    ensures |r| == |paths|
    ensures forall i :: 0 <= i < |paths| ==> r[i] == Substitute(paths[i], ext)
  {
    seq(|paths|, i requires 0 <= i < |paths| => Substitute(paths[i], ext))
  }

  /** The imports a turn adds: its paths, substituted, when writeData returned true; none otherwise, an exception included. */
  function Contributed(es: seq<Entry>, ext: string, t: Turn): seq<string> {
    if ResultOf(es, ext, t.run) == Returned(true) then SubstituteEach(t.paths, ext) else []
  }

  /** The WAR's entries and configuration.xml's imports so far. */
  datatype Assembly = Assembly(entries: seq<Entry>, imports: seq<string>)

  /** The first `n` turns of the handler loop of generateWARExtension, from an empty archive. */
  function AssembledUpTo(ext: string, turns: seq<Turn>, n: nat): Assembly
    requires n <= |turns|
    decreases n
  {
    if n == 0 then Assembly([], [])
    else
      var a := AssembledUpTo(ext, turns, n - 1);
      Assembly(Apply(a.entries, ext, turns[n - 1].run), a.imports + Contributed(a.entries, ext, turns[n - 1]))
  }

  /** The whole handler loop over the given turns. */
  function Assembled(ext: string, turns: seq<Turn>): Assembly {
    AssembledUpTo(ext, turns, |turns|)
  }

  /** The archive that turn `i` works on. */
  function EntriesBefore(ext: string, turns: seq<Turn>, i: nat): seq<Entry>
    requires i <= |turns|
  {
    AssembledUpTo(ext, turns, i).entries
  }

  /** Turns added later do not change what the earlier ones assembled. */
  lemma {:induction false} AssembledPrefix(ext: string, turns: seq<Turn>, more: seq<Turn>, n: nat)
    requires n <= |turns|
    ensures AssembledUpTo(ext, turns + more, n) == AssembledUpTo(ext, turns, n)
    decreases n
  {
    if n > 0 {
      AssembledPrefix(ext, turns, more, n - 1);
      assert (turns + more)[n - 1] == turns[n - 1];
    }
  }

  /** One more turn applies its run to the archive so far and adds its contribution to the imports. */
  lemma AssembledSnoc(ext: string, turns: seq<Turn>, t: Turn)
    ensures var a := Assembled(ext, turns);
      Assembled(ext, turns + [t]) ==
      Assembly(Apply(a.entries, ext, t.run), a.imports + Contributed(a.entries, ext, t))
  {
    AssembledPrefix(ext, turns, [t], |turns|);
    assert (turns + [t])[|turns|] == t;
  }

  /** The main configuration document: the imports, in order, and nothing else. */
  function MainConfiguration(imports: seq<string>): KernelXml.Configuration {
    KernelXml.Configuration([], [], imports)
  }

  function WebXmlEntry(svc: Services, ext: string): Entry {
    Entry(StreamEntryName(WebXmlLocation, ext), SubstituteContent(svc.webXmlTemplate, ext))
  }

  /** generateWARExtension: the handlers' turns, then configuration.xml, then web.xml. */
  function War(svc: Services, ext: string, turns: seq<Turn>): seq<Entry> {
    var a := Assembled(ext, turns);
    Put(Put(a.entries, ConfigurationEntry(ConfigurationXmlLocation, ext, MainConfiguration(a.imports))), WebXmlEntry(svc, ext))
  }

  // -------------------------------------------------------------------------
  // Properties of the WAR.

  /** `path` is the war: import of some entry of `es`. */
  predicate Resolves(path: string, es: seq<Entry>) {
    exists e :: e in es && Imports(path, e.name)
  }

  /** Later turns only ever add entries, and names stay unique. */
  lemma {:induction false} AssembledGrows(ext: string, turns: seq<Turn>, n: nat)
    requires n <= |turns|
    ensures UniqueNames(EntriesBefore(ext, turns, n))
    ensures forall m :: 0 <= m <= n ==> EntriesBefore(ext, turns, m) <= EntriesBefore(ext, turns, n)
    decreases n
  {
    if n > 0 {
      AssembledGrows(ext, turns, n - 1);
      TurnGrows(ext, turns, n - 1);
      hide EntriesBefore;
      forall m | 0 <= m <= n ensures EntriesBefore(ext, turns, m) <= EntriesBefore(ext, turns, n) {
        if m < n {
          PrefixTransitive(EntriesBefore(ext, turns, m), EntriesBefore(ext, turns, n - 1), EntriesBefore(ext, turns, n));
        }
      }
    }
  }

  lemma PrefixTransitive(a: seq<Entry>, b: seq<Entry>, c: seq<Entry>)
    requires a <= b && b <= c
    ensures a <= c
  {
    assert c[..|b|][..|a|] == c[..|a|];
  }

  /** One turn only adds entries to an archive with unique names, and keeps them unique. */
  lemma TurnGrows(ext: string, turns: seq<Turn>, i: nat)
    requires i < |turns| && UniqueNames(EntriesBefore(ext, turns, i))
    ensures EntriesBefore(ext, turns, i) <= EntriesBefore(ext, turns, i + 1)
    ensures UniqueNames(EntriesBefore(ext, turns, i + 1))
  {
    var prev := EntriesBefore(ext, turns, i);
    assert EntriesBefore(ext, turns, i + 1) == Apply(prev, ext, turns[i].run);
    ApplyFacts(prev, ext, turns[i].run);
  }

  /** What a turn contributes ends up among configuration.xml's imports. */
  lemma {:induction false} ContributionImported(ext: string, turns: seq<Turn>, n: nat, i: nat, q: string)
    requires i < n <= |turns|
    requires q in Contributed(EntriesBefore(ext, turns, i), ext, turns[i])
    ensures q in AssembledUpTo(ext, turns, n).imports
    decreases n
  {
    if i < n - 1 {
      ContributionImported(ext, turns, n - 1, i, q);
    }
  }

  /** Every import of configuration.xml was contributed by some turn. */
  lemma {:induction false} ImportContributed(ext: string, turns: seq<Turn>, n: nat, q: string) returns (i: nat)
    requires n <= |turns|
    requires q in AssembledUpTo(ext, turns, n).imports
    ensures i < n && q in Contributed(EntriesBefore(ext, turns, i), ext, turns[i])
    decreases n
  {
    if q in AssembledUpTo(ext, turns, n - 1).imports {
      i := ImportContributed(ext, turns, n - 1, q);
    } else {
      i := n - 1;
    }
  }

  /**
   * configuration.xml's imports are exactly the contributions of the turns,
   * each made on the archive the earlier turns left.
   */
  lemma ImportsAreContributions(ext: string, turns: seq<Turn>)
    ensures forall q :: q in Assembled(ext, turns).imports <==>
      exists i :: 0 <= i < |turns| && q in Contributed(EntriesBefore(ext, turns, i), ext, turns[i])
  {
    forall q | q in Assembled(ext, turns).imports
      ensures exists i :: 0 <= i < |turns| && q in Contributed(EntriesBefore(ext, turns, i), ext, turns[i])
    {
      var i := ImportContributed(ext, turns, |turns|, q);
    }
    forall q, i | 0 <= i < |turns| && q in Contributed(EntriesBefore(ext, turns, i), ext, turns[i])
      ensures q in Assembled(ext, turns).imports
    {
      ContributionImported(ext, turns, |turns|, i, q);
    }
  }

  /** After a put, the entry's name is in the archive, whether or not it was there already. */
  lemma PutNamePresent(es: seq<Entry>, e: Entry)
    ensures exists x :: x in Put(es, e) && x.name == e.name
  {
    if e.name in Names(es) {
      var x :| x in es && x.name == e.name;
      assert x in Put(es, e);
    } else {
      assert Put(es, e)[|es|] == e;
    }
  }

  /** A shaped turn of a modelled handler leaves, for each import it contributes, the entry that import names. */
  lemma TurnResolves(k: Kind, t: Turn, ext: string, es: seq<Entry>)
    requires !Opaque(k) && !k.ActionNodeTypes? && Shaped(k, t, ext) && UniqueNames(es)
    requires k.MopSite? ==> 'W' !in k.siteType
    ensures forall q :: q in Contributed(es, ext, t) ==> Resolves(q, Apply(es, ext, t.run))
  {
    if ResultOf(es, ext, t.run) == Returned(true) {
      var after := Apply(es, ext, t.run);
      if k.Drives? {
        PutAllFacts(es, t.run.writes);
        var w := t.run.writes[0];
        assert w.name in Names(t.run.writes);
        var x :| x in after && x.name == w.name;
        assert Resolves(Substitute(t.paths[0], ext), after);
      } else if !k.Gadgets? {
        DeclaredPathImportsFile(k, ext);
        var e := ConfigurationEntry(ConfigurationFile(k), ext, t.run.finish.document);
        PutNamePresent(PutAll(es, t.run.writes), e);
        var x :| x in after && x.name == e.name;
        assert Resolves(Substitute(InitialPaths(k)[0], ext), after);
      }
    }
  }

  /** The entries of the handler loop all end up in the WAR. */
  lemma AssembledInWar(svc: Services, ext: string, turns: seq<Turn>)
    ensures Assembled(ext, turns).entries <= War(svc, ext, turns)
  {
    var last := Assembled(ext, turns);
    var withConfig := Put(last.entries, ConfigurationEntry(ConfigurationXmlLocation, ext, MainConfiguration(last.imports)));
    assert last.entries <= withConfig;
  }

  /** An import contributed by turn `i` of a modelled handler names an entry of the WAR. */
  lemma ContributionResolves(svc: Services, ext: string, turns: seq<Turn>, i: nat, q: string)
    requires i < |turns| == |HandlerKinds|
    requires !Opaque(HandlerKinds[i]) && Shaped(HandlerKinds[i], turns[i], ext)
    requires q in Contributed(EntriesBefore(ext, turns, i), ext, turns[i])
    ensures Resolves(q, War(svc, ext, turns))
  {
    KindsDistinct();
    var es := EntriesBefore(ext, turns, i);
    AssembledGrows(ext, turns, i);
    TurnResolves(HandlerKinds[i], turns[i], ext, es);
    var e :| e in Apply(es, ext, turns[i].run) && Imports(q, e.name);
    EntryKept(svc, ext, turns, i, e);
  }

  /** An entry present once turn `i` is applied is still in the WAR. */
  lemma EntryKept(svc: Services, ext: string, turns: seq<Turn>, i: nat, e: Entry)
    requires i < |turns|
    requires e in Apply(EntriesBefore(ext, turns, i), ext, turns[i].run)
    ensures e in War(svc, ext, turns)
  {
    AssembledGrows(ext, turns, |turns|);
    assert EntriesBefore(ext, turns, i + 1) == Apply(EntriesBefore(ext, turns, i), ext, turns[i].run);
    AssembledInWar(svc, ext, turns);
  }

  /**
   * Every import a modelled handler contributes to configuration.xml is the
   * war: import of an entry of the WAR: a handler returns true only once
   * the file it imports is written, and no later write removes it.
   */
  lemma ImportsResolve(svc: Services, ext: string, turns: seq<Turn>)
    requires |turns| == |HandlerKinds|
    requires forall i :: 0 <= i < |HandlerKinds| ==> Shaped(HandlerKinds[i], turns[i], ext)
    ensures forall i, q ::
      (0 <= i < |HandlerKinds| && !Opaque(HandlerKinds[i]) &&
       q in Contributed(EntriesBefore(ext, turns, i), ext, turns[i])) ==>
      Resolves(q, War(svc, ext, turns))
  {
    forall i, q | 0 <= i < |HandlerKinds| && !Opaque(HandlerKinds[i]) &&
                  q in Contributed(EntriesBefore(ext, turns, i), ext, turns[i])
      ensures Resolves(q, War(svc, ext, turns))
    {
      ContributionResolves(svc, ext, turns, i, q);
    }
  }

  /** A name without 'd', 's' or a leading '/' passes through both renamings unchanged. */
  lemma PlainNameUnchanged(name: string, ext: string)
    requires name != [] && name[0] != '/' && 'd' !in name && 's' !in name
    ensures WrittenName(name, ext) == name
    ensures StreamEntryName(name, ext) == name
  {
    assert Placeholder[2] == 's';
    ReplaceMissingChar(name, Placeholder, ext, 's');
    assert "/ecmadmin"[5] == 'd';
    ReplaceMissingChar(name, "/ecmadmin", "", 'd');
  }

  /** The main configuration's name, once written, is the location itself. */
  lemma ConfigurationXmlName(ext: string)
    ensures WrittenName(ConfigurationXmlLocation, ext) == ConfigurationXmlLocation
  {
    assert 'd' !in ConfigurationXmlLocation && 's' !in ConfigurationXmlLocation;
    PlainNameUnchanged(ConfigurationXmlLocation, ext);
  }

  /** web.xml's name, once written, is the location itself. */
  lemma WebXmlName(ext: string)
    ensures StreamEntryName(WebXmlLocation, ext) == WebXmlLocation
  {
    assert 'd' !in WebXmlLocation && 's' !in WebXmlLocation;
    PlainNameUnchanged(WebXmlLocation, ext);
  }

  /**
   * The WAR always holds WEB-INF/conf/configuration.xml and WEB-INF/web.xml;
   * unless a handler already wrote a file of that name, configuration.xml
   * holds exactly the imports the handlers contributed, in order.
   */
  lemma WarHasMainFiles(svc: Services, ext: string, turns: seq<Turn>)
    ensures exists e :: e in War(svc, ext, turns) && e.name == ConfigurationXmlLocation
    ensures exists e :: e in War(svc, ext, turns) && e.name == WebXmlLocation
    ensures var a := Assembled(ext, turns);
      ConfigurationXmlLocation !in Names(a.entries) ==>
      Entry(ConfigurationXmlLocation, Xml(MainConfiguration(a.imports), [ext])) in War(svc, ext, turns)
  {
    var a := Assembled(ext, turns);
    ConfigurationXmlName(ext);
    WebXmlName(ext);
    var config := ConfigurationEntry(ConfigurationXmlLocation, ext, MainConfiguration(a.imports));
    var withConfig := Put(a.entries, config);
    PutNamePresent(a.entries, config);
    var x :| x in withConfig && x.name == ConfigurationXmlLocation;
    assert x in War(svc, ext, turns);
    PutNamePresent(withConfig, WebXmlEntry(svc, ext));
    if ConfigurationXmlLocation !in Names(a.entries) {
      assert config in withConfig;
    }
  }

  /** A turn that does not return true adds no import, whatever it wrote; the gadgets handler never adds one. */
  lemma NoImportUnlessTrue(k: Kind, t: Turn, ext: string, es: seq<Entry>)
    requires Shaped(k, t, ext)
    ensures ResultOf(es, ext, t.run) != Returned(true) ==> Contributed(es, ext, t) == []
    ensures k.Gadgets? ==> Contributed(es, ext, t) == []
  {
  }

  // -------------------------------------------------------------------------
  // Packaging.

  /** The activation JAR: conf/configuration.xml, the class-path template with the extension name substituted. */
  function ActivationJar(svc: Services, ext: string): seq<Entry> {
    [Entry(StreamEntryName(ActivationEntry, ext), SubstituteContent(svc.configurationTemplate, ext))]
  }

  /** generateExtensionZip: the WAR under webapps/, then the activation JAR under lib/. */
  function Package(svc: Services, ext: string, war: seq<Entry>): seq<Entry> {
    var withWar := Put([], Entry(StreamEntryName("webapps/" + ext + ".war", ext), Zip(war)));
    Put(withWar, Entry(StreamEntryName("lib/" + ext + "-config.jar", ext), Zip(ActivationJar(svc, ext))))
  }

  /** generateExtensionMavenProject: the template's files, then the JAR's and the WAR's below their roots. */
  function MavenProject(svc: Services, ext: string, war: seq<Entry>): seq<Entry> {
    var template := PutAll([], Copies(svc.mavenTemplate, "", ext));
    var withJar := PutAll(template, Copies(ActivationJar(svc, ext), ActivationRoot, ext));
    PutAll(withJar, Copies(war, WarRoot, ext))
  }

  /** The activation JAR's one entry keeps its name: conf/configuration.xml. */
  lemma ActivationJarLayout(svc: Services, ext: string)
    ensures ActivationJar(svc, ext) == [Entry(ActivationEntry, SubstituteContent(svc.configurationTemplate, ext))]
  {
    assert 'd' !in ActivationEntry && 's' !in ActivationEntry;
    PlainNameUnchanged(ActivationEntry, ext);
  }

  /** A head without '/' or 'c' passes through the stream writer's renaming unchanged. */
  lemma StreamNameKeepsHead(head: string, rest: string, ext: string)
    requires head != [] && '/' !in head && 'c' !in head
    ensures StreamEntryName(head + rest, ext) == head + Substitute(ReplaceAll(rest, "/ecmadmin", ""), ext)
  {
    ReplaceKeepsHead(head, rest, "/ecmadmin", "");
    SubstituteKeepsHead(head, ReplaceAll(rest, "/ecmadmin", ""), ext);
    var w := head + Substitute(ReplaceAll(rest, "/ecmadmin", ""), ext);
    assert w[0] == head[0];
  }

  /** The names the package's two entries get: each keeps its directory, and they differ. */
  lemma PackageNames(ext: string)
    ensures StreamEntryName("webapps/" + ext + ".war", ext) == "webapps" + Substitute(ReplaceAll("/" + ext + ".war", "/ecmadmin", ""), ext)
    ensures StreamEntryName("lib/" + ext + "-config.jar", ext) == "lib" + Substitute(ReplaceAll("/" + ext + "-config.jar", "/ecmadmin", ""), ext)
    ensures StreamEntryName("webapps/" + ext + ".war", ext) != StreamEntryName("lib/" + ext + "-config.jar", ext)
  {
    assert "webapps/" + ext + ".war" == "webapps" + ("/" + ext + ".war");
    assert 'c' !in "webapps" && '/' !in "webapps";
    StreamNameKeepsHead("webapps", "/" + ext + ".war", ext);
    assert "lib/" + ext + "-config.jar" == "lib" + ("/" + ext + "-config.jar");
    assert 'c' !in "lib" && '/' !in "lib";
    StreamNameKeepsHead("lib", "/" + ext + "-config.jar", ext);
    var w := StreamEntryName("webapps/" + ext + ".war", ext);
    var l := StreamEntryName("lib/" + ext + "-config.jar", ext);
    assert w[0] == 'w' && l[0] == 'l';
  }

  /**
   * The package holds exactly two entries: the WAR under webapps/ and the
   * activation JAR under lib/, each named after the extension.
   */
  lemma PackageLayout(svc: Services, ext: string, war: seq<Entry>)
    ensures Package(svc, ext, war) == [
      Entry(StreamEntryName("webapps/" + ext + ".war", ext), Zip(war)),
      Entry(StreamEntryName("lib/" + ext + "-config.jar", ext), Zip(ActivationJar(svc, ext)))]
  {
    PackageNames(ext);
    var first := Entry(StreamEntryName("webapps/" + ext + ".war", ext), Zip(war));
    assert Names([first]) == {first.name};
  }

  /** Below a root that does not start with '/', a name that leaves no "//" is copied to root + "/" + name. */
  lemma CopyTargetUnderRoot(root: string, name: string)
    requires root != [] && root[0] != '/' && !Contains(root + "/" + name, "//")
    ensures CopyTarget(root, name) == root + "/" + name
  {
    NoDoubleIff(root + "/" + name);
    SqueezeFixed(root + "/" + name);
    assert (root + "/" + name)[0] == root[0];
  }

  /**
   * The Maven project starts with the template's copies, never loses an
   * entry, and holds a copy of each copyable WAR entry, by name.
   */
  lemma MavenProjectFacts(svc: Services, ext: string, war: seq<Entry>)
    ensures UniqueNames(MavenProject(svc, ext, war))
    ensures PutAll([], Copies(svc.mavenTemplate, "", ext)) <= MavenProject(svc, ext, war)
    ensures forall e :: e in Copies(war, WarRoot, ext) ==> e.name in Names(MavenProject(svc, ext, war))
  {
    var template := PutAll([], Copies(svc.mavenTemplate, "", ext));
    PutAllFacts([], Copies(svc.mavenTemplate, "", ext));
    var withJar := PutAll(template, Copies(ActivationJar(svc, ext), ActivationRoot, ext));
    PutAllFacts(template, Copies(ActivationJar(svc, ext), ActivationRoot, ext));
    PutAllFacts(withJar, Copies(war, WarRoot, ext));
  }
}
