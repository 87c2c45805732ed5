/**
 * The site contents handler (SiteContentsConfigurationHandler): exports each
 * selected site's contents separately, copies the content files under the
 * WCM content location while recording each site's metadata, content
 * locations and version-history partners, then declares one deployment
 * plugin per site and, unless only the shared site was exported, a plugin
 * listing the sites to ignore.
 */
module SiteContentsHandler {
  import opened Wrappers
  import opened Strings
  import opened KernelXml
  import opened Archive
  import opened Paths
  import opened Platform
  import opened Utils
  import opened HandlerBase

  const WcmContentDir := "/conf/" + Placeholder + "/wcm/content"

  /** WCM_CONTENT_CONFIGURATION_LOCATION */
  const WcmContentLocation := "WEB-INF" + WcmContentDir

  /** WCM_CONTENT_CONFIGURATION_NAME, with its leading '/'. */
  const WcmConfigurationName := "/content-artifacts-" + "deployment-configuration.xml"

  /** The one import this handler declares. */
  const ConfigurationPaths := [WarForm(WcmContentLocation) + WcmConfigurationName]

  /** The three fixed filters of every site export: no skeleton, no taxonomy, no history. */
  const SiteFilters := ["no-skeleton:true", "taxonomy:false", "no-hitory:true"]

  /** The constructor. */
  method NewSiteContentsHandler() returns (h: Handler)
    ensures fresh(h)
    ensures h.kind == SiteContents && h.tempFiles == [] && h.configurationPaths == ConfigurationPaths
  {
    h := new Handler(SiteContents, ConfigurationPaths);
  }

  /** The data separator and the version-history suffix are non-empty texts. */
  predicate ConstantsOk(svc: Services) {
    svc.jcrDataSeparator != [] && svc.versionHistorySuffix != []
  }

  // -------------------------------------------------------------------------
  // Site names.

  /** String.indexOf(char, from): the first index from `from` on holding `c`, or -1. */
  function IndexOfFrom(s: string, c: char, from: nat): (r: int)
    requires from <= |s|
    ensures r == -1 || (from <= r < |s| && s[r] == c)
    ensures forall i :: from <= i < |s| && (r == -1 || i < r) ==> s[i] != c
    decreases |s| - from
  {
    if from == |s| then -1
    else if s[from] == c then from
    else IndexOfFrom(s, c, from + 1)
  }

  /**
   * extractSiteNameFromPath: the text from one character past the site
   * contents root up to the next '/'; None when substring throws (the path
   * is too short, or no '/' follows).
   */
  function SiteNameOf(root: string, path: string): Option<string> {
    var b := |root| + 1;
    if b > |path| then None
    else
      var k := IndexOfFrom(path, '/', b);
      if k < 0 then None else Some(path[b..k])
  }

  /** The site name exists exactly when a '/' follows the root and its separator, and is the '/'-free text up to the first one. */
  lemma SiteNameOfExactly(root: string, path: string)
    ensures SiteNameOf(root, path).Some? <==> exists j :: |root| + 1 <= j < |path| && path[j] == '/'
    ensures var r := SiteNameOf(root, path);
      r.Some? ==> (|root| + 1 + |r.value| < |path| && '/' !in r.value &&
        path[|root| + 1..|root| + 1 + |r.value|] == r.value && path[|root| + 1 + |r.value|] == '/')
  {
  }

  /** An exported path "<root>/<site>/<rest>" names its site. */
  lemma SiteNameOfSitePath(root: string, site: string, rest: string)
    requires '/' !in site
    ensures SiteNameOf(root, root + "/" + site + "/" + rest) == Some(site)
  {
    var path := root + "/" + site + "/" + rest;
    var b := |root| + 1;
    SiteNameOfExactly(root, path);
    assert path[b + |site|] == '/';
    assert forall i :: b <= i < b + |site| ==> path[i] == site[i - b];
    assert path[b..b + |site|] == site;
  }

  // -------------------------------------------------------------------------
  // The export loops.

  /**
   * What the loops gather: the entries written, the sites with metadata in
   * the order first seen, their metadata, each site's listed content
   * locations, the locations with a version history, and whether an entry
   * failed (the handler returns false).
   */
  datatype Gathered = Gathered(
    writes: seq<Entry>,
    sites: seq<string>,
    metadatas: map<string, SiteMetadata>,
    locations: map<string, seq<string>>,
    versioned: set<string>,
    failed: bool)

  const Nothing := Gathered([], [], map[], map[], {}, false)

  /** The copy of a content file: under the WCM content location, at the part of its name after the separator, bytes unchanged. */
  function ContentCopy(ext: string, location: string, e: Entry): Entry {
    Entry(StreamEntryName(WcmContentLocation + location, ext), e.content)
  }

  /** A metadata file: recorded under its site, the site remembered the first time; one that does not unmarshal fails. */
  function MetadataStep(svc: Services, g: Gathered, site: string, e: Entry): Gathered {
    var m := svc.parseSiteMetadata(e.content);
    if m.None? then g.(failed := true)
    else g.(sites := if site in g.metadatas then g.sites else g.sites + [site], metadatas := g.metadatas[site := m.value])
  }

  /**
   * A content file: the site gets a (possibly empty) list; a version-history
   * file records its ".xml" partner, any other file is listed; both are
   * copied. A name that does not split into two parts is skipped.
   */
  function ContentStep(svc: Services, ext: string, g: Gathered, site: string, e: Entry): Gathered
    requires ConstantsOk(svc)
  {
    var parts := Split(e.name, svc.jcrDataSeparator);
    if |parts| != 2 then g
    else
      var location := parts[1];
      var locations := if site in g.locations then g.locations else g.locations[site := []];
      var written := g.writes + [ContentCopy(ext, location, e)];
      if EndsWith(location, svc.versionHistorySuffix) then
        g.(writes := written, locations := locations,
           versioned := g.versioned + {ReplaceAll(location, svc.versionHistorySuffix, ".xml")})
      else g.(writes := written, locations := locations[site := locations[site] + [location]])
  }

  /** One entry of a site export; an entry whose site name cannot be extracted fails. */
  function Step(svc: Services, ext: string, g: Gathered, e: Entry): Gathered
    requires ConstantsOk(svc)
  {
    var site := SiteNameOf(svc.siteContentsRootPath, e.name);
    if site.None? then g.(failed := true)
    else if EndsWith(e.name, "metadata.xml") then MetadataStep(svc, g, site.value, e)
    else if EndsWith(e.name, "seo.xml") then g
    else ContentStep(svc, ext, g, site.value, e)
  }

  /** The entry loop of one site export, from `g` on; a failed entry ends it. */
  function GatherEntries(svc: Services, ext: string, g: Gathered, es: seq<Entry>): Gathered
    requires ConstantsOk(svc)
    decreases |es|
  {
    if es == [] then g
    else
      var before := GatherEntries(svc, ext, g, es[..|es| - 1]);
      if before.failed then before else Step(svc, ext, before, es[|es| - 1])
  }

  /** The site loop: each selected site exported with the fixed filters; a failed export is skipped. */
  function GatherSites(svc: Services, ext: string, resources: seq<string>): Gathered
    requires ConstantsOk(svc)
    decreases |resources|
  {
    if resources == [] then Nothing
    else
      var before := GatherSites(svc, ext, resources[..|resources| - 1]);
      var zip := ExportOf(svc, resources[|resources| - 1], SiteFilters);
      if before.failed || zip.None? then before else GatherEntries(svc, ext, before, zip.value)
  }

  lemma {:induction false} EntriesFailureSticks(svc: Services, ext: string, g: Gathered, es: seq<Entry>, k: nat)
    requires ConstantsOk(svc) && k <= |es| && GatherEntries(svc, ext, g, es[..k]).failed
    ensures GatherEntries(svc, ext, g, es) == GatherEntries(svc, ext, g, es[..k])
    decreases |es| - k
  {
    if k < |es| {
      assert es[..k + 1][..k] == es[..k];
      EntriesFailureSticks(svc, ext, g, es, k + 1);
    } else {
      assert es[..k] == es;
    }
  }

  /** A failed gathering stays as it is. */
  lemma {:induction false} FailedEntriesUnchanged(svc: Services, ext: string, g: Gathered, es: seq<Entry>)
    requires ConstantsOk(svc) && g.failed
    ensures GatherEntries(svc, ext, g, es) == g
    decreases |es|
  {
    if es != [] {
      FailedEntriesUnchanged(svc, ext, g, es[..|es| - 1]);
    }
  }

  lemma {:induction false} SitesFailureSticks(svc: Services, ext: string, resources: seq<string>, k: nat)
    requires ConstantsOk(svc) && k <= |resources| && GatherSites(svc, ext, resources[..k]).failed
    ensures GatherSites(svc, ext, resources) == GatherSites(svc, ext, resources[..k])
    decreases |resources| - k
  {
    if k < |resources| {
      assert resources[..k + 1][..k] == resources[..k];
      SitesFailureSticks(svc, ext, resources, k + 1);
    } else {
      assert resources[..k] == resources;
    }
  }

  /** Failed exports are swallowed: when every export fails, nothing is gathered. */
  lemma {:induction false} FailedExportsSwallowed(svc: Services, ext: string, resources: seq<string>)
    requires ConstantsOk(svc)
    requires forall i :: 0 <= i < |resources| ==> ExportOf(svc, resources[i], SiteFilters).None?
    ensures GatherSites(svc, ext, resources) == Nothing
    decreases |resources|
  {
    if resources != [] {
      var init := resources[..|resources| - 1];
      assert forall i :: 0 <= i < |init| ==> init[i] == resources[i];
      FailedExportsSwallowed(svc, ext, init);
    }
  }

  /**
   * What the loops keep true: the sites are distinct and are exactly the
   * sites with metadata, and no listed location is a version-history file.
   */
  ghost predicate Coherent(svc: Services, g: Gathered) {
    (forall i, j :: 0 <= i < j < |g.sites| ==> g.sites[i] != g.sites[j]) &&
    (forall s :: s in g.metadatas <==> s in g.sites) &&
    (forall s, i :: s in g.locations && 0 <= i < |g.locations[s]| ==> !EndsWith(g.locations[s][i], svc.versionHistorySuffix))
  }

  lemma StepCoherent(svc: Services, ext: string, g: Gathered, e: Entry)
    requires ConstantsOk(svc) && Coherent(svc, g)
    ensures Coherent(svc, Step(svc, ext, g, e))
  {
    var site := SiteNameOf(svc.siteContentsRootPath, e.name);
    if site.Some? && EndsWith(e.name, "metadata.xml") {
      var m := svc.parseSiteMetadata(e.content);
      if m.Some? && site.value !in g.metadatas {
        MetadataSiteAdded(svc, g, site.value, m.value);
      }
    } else if site.Some? && !EndsWith(e.name, "seo.xml") {
      var parts := Split(e.name, svc.jcrDataSeparator);
      if |parts| == 2 {
        LocationListed(svc, g, site.value, parts[1]);
      }
    }
  }

  /** Recording metadata for a new site keeps the sites distinct and equal to the metadata's keys. */
  lemma MetadataSiteAdded(svc: Services, g: Gathered, site: string, m: SiteMetadata)
    requires Coherent(svc, g) && site !in g.metadatas
    ensures Coherent(svc, g.(sites := g.sites + [site], metadatas := g.metadatas[site := m]))
  {
    var sites := g.sites + [site];
    assert forall i :: 0 <= i < |g.sites| ==> sites[i] == g.sites[i];
  }

  /** Giving a site a list, and listing a location that is not a version-history file, keep the listed locations clean. */
  lemma LocationListed(svc: Services, g: Gathered, site: string, location: string)
    requires Coherent(svc, g)
    ensures var locations := if site in g.locations then g.locations else g.locations[site := []];
      Coherent(svc, g.(locations := locations)) &&
      (!EndsWith(location, svc.versionHistorySuffix) ==>
        Coherent(svc, g.(locations := locations[site := locations[site] + [location]])))
  {
    var locations := if site in g.locations then g.locations else g.locations[site := []];
    var listed := locations[site];
    assert forall i :: 0 <= i < |listed| ==> (listed + [location])[i] == listed[i];
  }

  lemma {:induction false} EntriesCoherent(svc: Services, ext: string, g: Gathered, es: seq<Entry>)
    requires ConstantsOk(svc) && Coherent(svc, g)
    ensures Coherent(svc, GatherEntries(svc, ext, g, es))
    decreases |es|
  {
    if es != [] {
      var before := GatherEntries(svc, ext, g, es[..|es| - 1]);
      EntriesCoherent(svc, ext, g, es[..|es| - 1]);
      if !before.failed {
        StepCoherent(svc, ext, before, es[|es| - 1]);
      }
    }
  }

  /** The loops keep the gathered state coherent. */
  lemma {:induction false} SitesCoherent(svc: Services, ext: string, resources: seq<string>)
    requires ConstantsOk(svc)
    ensures Coherent(svc, GatherSites(svc, ext, resources))
    decreases |resources|
  {
    if resources != [] {
      var before := GatherSites(svc, ext, resources[..|resources| - 1]);
      SitesCoherent(svc, ext, resources[..|resources| - 1]);
      var zip := ExportOf(svc, resources[|resources| - 1], SiteFilters);
      if !before.failed && zip.Some? {
        EntriesCoherent(svc, ext, before, zip.value);
      }
    }
  }

  /**
   * One entry's effect: an entry without a site name fails, so does a
   * metadata file that does not unmarshal; otherwise only a content file (one
   * that is neither metadata nor SEO and splits into two parts) is written,
   * at the part after the separator.
   */
  lemma StepWrites(svc: Services, ext: string, g: Gathered, e: Entry)
    requires ConstantsOk(svc)
    ensures var r := Step(svc, ext, g, e);
      (r.failed <==> (g.failed || SiteNameOf(svc.siteContentsRootPath, e.name).None? ||
        (EndsWith(e.name, "metadata.xml") && svc.parseSiteMetadata(e.content).None?))) &&
      (IsContentFile(svc, e) ==> r.writes == g.writes + [ContentCopy(ext, Split(e.name, svc.jcrDataSeparator)[1], e)]) &&
      (!IsContentFile(svc, e) ==> r.writes == g.writes)
  {
  }

  /** An entry the loop copies: it names a site, is neither metadata nor SEO, and splits into two parts. */
  predicate IsContentFile(svc: Services, e: Entry)
    requires ConstantsOk(svc)
  {
    SiteNameOf(svc.siteContentsRootPath, e.name).Some? && !EndsWith(e.name, "metadata.xml") &&
    !EndsWith(e.name, "seo.xml") && |Split(e.name, svc.jcrDataSeparator)| == 2
  }

  // -------------------------------------------------------------------------
  // The configuration.

  /** ArrayList.remove(Object): the first occurrence removed. */
  function RemoveFirst(s: seq<string>, x: string): (r: seq<string>)
    ensures x !in s ==> r == s
    ensures x in s ==> |r| == |s| - 1
    ensures forall y :: y != x ==> (y in r <==> y in s)
    decreases |s|
  {
    if s == [] then []
    else if s[0] == x then s[1..]
    else [s[0]] + RemoveFirst(s[1..], x)
  }

  /** The sites to ignore: those with metadata, "shared" removed. */
  function IgnoredSites(g: Gathered): seq<string> {
    RemoveFirst(g.sites, "shared")
  }

  /** In a coherent state, the ignored sites are exactly the sites with metadata other than "shared". */
  lemma IgnoredSitesExactly(svc: Services, g: Gathered)
    requires Coherent(svc, g)
    ensures forall x :: x in IgnoredSites(g) <==> x in g.metadatas && x != "shared"
    ensures IgnoredSites(g) == [] <==> g.metadatas.Keys <= {"shared"}
  {
    if "shared" in g.sites {
      var i :| 0 <= i < |g.sites| && g.sites[i] == "shared";
      SharedRemoved(g.sites, i);
    }
    if IgnoredSites(g) != [] {
      assert IgnoredSites(g)[0] in IgnoredSites(g);
    }
  }

  /** Removing the only occurrence leaves no occurrence. */
  lemma {:induction false} SharedRemoved(s: seq<string>, i: nat)
    requires i < |s| && s[i] == "shared"
    requires forall a, b :: 0 <= a < b < |s| ==> s[a] != s[b]
    ensures "shared" !in RemoveFirst(s, "shared")
    decreases |s|
  {
    if s[0] != "shared" {
      assert s[1..][i - 1] == "shared";
      SharedRemoved(s[1..], i - 1);
    } else {
      assert i == 0;
      assert forall k :: 0 <= k < |s[1..]| ==> s[1..][k] == s[k + 1] != s[0];
    }
  }

  /** The group asking the portal artifacts service to ignore those sites. */
  function IgnoreGroup(ignored: seq<string>): ExternalComponentPlugins {
    var params := AddParam(map[], ValuesParam("autoCreatedInNewRepository", ignored));
    SinglePluginGroup(CreatePortalArtifactsService,
      CreateComponentPlugin("Add as ignored portal", IgnorePortalPlugin, "addIgnorePortalPlugin", Some(params), []))
  }

  /** The WCM content location in war: form, name substituted: where every source path starts. */
  function ContentSource(ext: string): string {
    Substitute(WarForm(WcmContentLocation), ext)
  }

  /**
   * The deployment descriptor of one listed location: the war: source path,
   * the site's workspace, the node path up to the location's last '/', a
   * version-history path only when a partner was seen, no publication
   * cleanup; None when the location holds no '/' (substring throws).
   */
  function Descriptor(svc: Services, ext: string, versioned: set<string>, md: SiteMetadata, location: string): (r: Option<PortalObject>)
    requires ConstantsOk(svc)
    ensures r.None? <==> '/' !in location
  {
    var slash := LastIndexOf(location, '/');
    if slash < 0 then None
    else
      var source := ContentSource(ext) + location;
      var workspace := if "site-workspace" in md.options then Some(md.options["site-workspace"]) else None;
      var history := if location in versioned then Some(ReplaceAll(source, ".xml", svc.versionHistorySuffix)) else None;
      Some(DeploymentDescriptor(source, workspace, location[..slash], history, false))
  }

  /**
   * A descriptor's fields: the war: source path, the site's workspace when
   * its options give one, the node path up to the location's last '/', a
   * version-history path (the source path with ".xml" replaced by the
   * suffix) exactly when a partner was seen, and no publication cleanup.
   */
  lemma DescriptorFacts(svc: Services, ext: string, versioned: set<string>, md: SiteMetadata, location: string)
    requires ConstantsOk(svc) && '/' in location
    ensures var r := Descriptor(svc, ext, versioned, md, location).value;
      r.DeploymentDescriptor? && r.sourcePath == ContentSource(ext) + location && !r.cleanupPublication &&
      (r.workspace.Some? <==> "site-workspace" in md.options) &&
      (r.workspace.Some? ==> r.workspace.value == md.options["site-workspace"]) &&
      (r.versionHistoryPath.Some? <==> location in versioned) &&
      (r.versionHistoryPath.Some? ==> r.versionHistoryPath.value == ReplaceAll(r.sourcePath, ".xml", svc.versionHistorySuffix))
    ensures var n := |Descriptor(svc, ext, versioned, md, location).value.nodePath|;
      n < |location| && location[..n] == Descriptor(svc, ext, versioned, md, location).value.nodePath &&
      location[n] == '/' && '/' !in location[n + 1..]
  {
  }

  /** The object parameters of a site's locations, in order; None when one has no '/'. */
  function LocationParams(svc: Services, ext: string, versioned: set<string>, md: SiteMetadata, locations: seq<string>): (r: Option<seq<Param>>)
    requires ConstantsOk(svc)
    ensures r.None? <==> exists i :: 0 <= i < |locations| && '/' !in locations[i]
    ensures r.Some? ==> (|r.value| == |locations| &&
      forall i :: 0 <= i < |locations| ==> r.value[i] == ObjectParam(locations[i], Descriptor(svc, ext, versioned, md, locations[i]).value))
    decreases |locations|
  {
    if locations == [] then Some([])
    else
      var init := locations[..|locations| - 1];
      var last := locations[|locations| - 1];
      var before := LocationParams(svc, ext, versioned, md, init);
      var d := Descriptor(svc, ext, versioned, md, last);
      assert forall i :: 0 <= i < |init| ==> init[i] == locations[i];
      if before.None? || d.None? then None else Some(before.value + [ObjectParam(last, d.value)])
  }

  const OverrideParam := ValueParam("override", "false")

  /**
   * The plugin of one site: the override flag, then one object parameter per
   * content location listed under the site its metadata names; None when
   * the metadata names no site or a site with no list (a
   * dereference of null), or when a location has no '/'.
   */
  function SitePlugin(svc: Services, ext: string, g: Gathered, key: string): Option<ComponentPlugin>
    requires ConstantsOk(svc) && key in g.metadatas
  {
    var md := g.metadatas[key];
    if "site-name" !in md.options || md.options["site-name"] !in g.locations then None
    else
      var params := LocationParams(svc, ext, g.versioned, md, g.locations[md.options["site-name"]]);
      if params.None? then None
      else
        Some(CreateComponentPlugin(key + " Content Initializer Service", XMLDeploymentPlugin, "addPlugin",
          Some(AddParams(map[], [OverrideParam] + params.value)), []))
  }

  /** The values of every option, in order, when all are present. */
  function AllPresent<T>(os: seq<Option<T>>): (r: Option<seq<T>>)
    ensures r.None? <==> exists i :: 0 <= i < |os| && os[i].None?
    ensures r.Some? ==> |r.value| == |os| && forall i :: 0 <= i < |os| ==> Some(r.value[i]) == os[i]
    decreases |os|
  {
    if os == [] then Some([])
    else
      var init := os[..|os| - 1];
      var before := AllPresent(init);
      assert forall i :: 0 <= i < |init| ==> init[i] == os[i];
      if before.None? || os[|os| - 1].None? then None else Some(before.value + [os[|os| - 1].value])
  }

  /** The content plugins, one per site in order; None as soon as one site's plugin fails. */
  function SitePlugins(svc: Services, ext: string, g: Gathered, keys: seq<string>): (r: Option<seq<ComponentPlugin>>)
    requires ConstantsOk(svc) && forall k :: k in keys ==> k in g.metadatas
    ensures r.None? <==> exists i :: 0 <= i < |keys| && SitePlugin(svc, ext, g, keys[i]).None?
    ensures r.Some? ==> |r.value| == |keys| && forall i :: 0 <= i < |keys| ==> Some(r.value[i]) == SitePlugin(svc, ext, g, keys[i])
  {
    var os := seq(|keys|, i requires 0 <= i < |keys| => SitePlugin(svc, ext, g, keys[i]));
    assert forall i :: 0 <= i < |keys| ==> os[i] == SitePlugin(svc, ext, g, keys[i]);
    var r := AllPresent(os);
    if r.None? then
      var j :| 0 <= j < |os| && os[j].None?;
      assert SitePlugin(svc, ext, g, keys[j]).None?;
      r
    else r
  }

  /** The content group: each plugin added in turn for the content initializer service. */
  function ContentGroup(plugins: seq<ComponentPlugin>): ExternalComponentPlugins
    decreases |plugins|
  {
    if plugins == [] then NoPlugins
    else AddComponentPlugin(ContentGroup(plugins[..|plugins| - 1]), WCMContentInitializerService, plugins[|plugins| - 1])
  }

  /** The content group holds every plugin in order, and targets the service once it holds one. */
  lemma {:induction false} ContentGroupHolds(plugins: seq<ComponentPlugin>)
    ensures plugins == [] ==> ContentGroup(plugins) == NoPlugins
    ensures plugins != [] ==> ContentGroup(plugins) == ExternalComponentPlugins(Some(WCMContentInitializerService), Some(plugins))
    decreases |plugins|
  {
    if plugins != [] {
      var init := plugins[..|plugins| - 1];
      ContentGroupHolds(init);
      assert init + [plugins[|plugins| - 1]] == plugins;
    }
  }

  /** The configuration document: the content initializer component, the content group, then the ignore group if any. */
  function SiteContentsDocument(plugins: seq<ComponentPlugin>, ignored: seq<string>): Configuration {
    Configuration([Component(WCMContentInitializerService)],
      [ContentGroup(plugins)] + (if ignored == [] then [] else [IgnoreGroup(ignored)]), [])
  }

  /** writeData */
  function SiteContentsRun(svc: Services, ext: string, selection: seq<string>): Run
    requires ConstantsOk(svc)
  {
    var filtered := Filtered(selection, ContentSitesPath);
    if filtered == [] then Declined
    else
      var g := GatherSites(svc, ext, filtered);
      if g.failed then Run(g.writes, Done(Returned(false)))
      else
        SitesCoherent(svc, ext, filtered);
        var plugins := SitePlugins(svc, ext, g, g.sites);
        if plugins.None? then Run(g.writes, Done(Threw))
        else Run(g.writes, Configure(WcmContentLocation + WcmConfigurationName, SiteContentsDocument(plugins.value, IgnoredSites(g))))
  }

  /**
   * A selection without sites declines; a failed entry returns false after
   * the copies made before it; a site whose plugin cannot be built escapes;
   * otherwise the run reaches its configuration. Every run writes exactly
   * what the loops copied.
   */
  lemma RunOutcomes(svc: Services, ext: string, selection: seq<string>)
    requires ConstantsOk(svc)
    ensures var filtered := Filtered(selection, ContentSitesPath);
      var g := GatherSites(svc, ext, filtered);
      var run := SiteContentsRun(svc, ext, selection);
      (filtered == [] ==> run == Declined) &&
      (filtered != [] ==> run.writes == g.writes) &&
      (filtered != [] && g.failed ==> run.finish == Done(Returned(false))) &&
      (filtered != [] && !g.failed ==>
        (run.finish == Done(Threw) <==>
          exists i :: 0 <= i < |g.sites| && g.sites[i] in g.metadatas && SitePlugin(svc, ext, g, g.sites[i]).None?)) &&
      (filtered != [] && !g.failed && run.finish != Done(Threw) ==> run.finish.Configure?)
  {
    var filtered := Filtered(selection, ContentSitesPath);
    if filtered != [] {
      SitesCoherent(svc, ext, filtered);
    }
  }

  /** Init params built from parameters that agree on every name carry, for each name given, that parameter. */
  lemma {:induction false} AddParamsAgreeing(params: InitParams, parameters: seq<Param>, i: nat)
    requires i < |parameters|
    requires forall j :: 0 <= j < |parameters| && parameters[j].name == parameters[i].name ==> parameters[j] == parameters[i]
    ensures parameters[i].name in AddParams(params, parameters)
    ensures AddParams(params, parameters)[parameters[i].name] == parameters[i]
    decreases |parameters|
  {
    var last := |parameters| - 1;
    if parameters[last].name != parameters[i].name {
      var init := parameters[..last];
      assert forall j :: 0 <= j < |init| ==> init[j] == parameters[j];
      AddParamsAgreeing(params, init, i);
    }
  }

  /** The override flag followed by parameters named after the locations declares exactly the flag and the locations. */
  lemma OverrideThenLocationsKeys(locations: seq<string>, ps: seq<Param>, all: seq<Param>)
    requires |ps| == |locations| && forall i :: 0 <= i < |ps| ==> ps[i].name == locations[i]
    requires all == [OverrideParam] + ps
    ensures AddParams(map[], all).Keys == {"override"} + (set l | l in locations)
  {
    var params := AddParams(map[], all);
    assert all[0].name == "override";
    forall n | n in params
      ensures n == "override" || n in locations
    {
      var j :| 0 <= j < |all| && all[j].name == n;
      if j > 0 {
        assert all[j] == ps[j - 1];
      }
    }
    forall l | l in locations
      ensures l in params
    {
      var k :| 0 <= k < |locations| && locations[k] == l;
      assert all[k + 1] == ps[k];
    }
  }

  /** When two parameters of the same name are equal, each location's parameter is the one declared, and so is the flag. */
  lemma OverrideThenLocationsValues(locations: seq<string>, ps: seq<Param>, all: seq<Param>)
    requires |ps| == |locations| && forall i :: 0 <= i < |ps| ==> ps[i].name == locations[i]
    requires forall i, j :: 0 <= i < |ps| && 0 <= j < |ps| && locations[i] == locations[j] ==> ps[i] == ps[j]
    requires all == [OverrideParam] + ps
    ensures "override" !in locations ==> "override" in AddParams(map[], all) && AddParams(map[], all)["override"] == OverrideParam
    ensures forall i :: 0 <= i < |ps| && locations[i] != "override" ==>
      locations[i] in AddParams(map[], all) && AddParams(map[], all)[locations[i]] == ps[i]
  {
    assert forall j :: 1 <= j < |all| ==> all[j] == ps[j - 1];
    forall i | 0 <= i < |ps| && locations[i] != "override"
      ensures locations[i] in AddParams(map[], all) && AddParams(map[], all)[locations[i]] == ps[i]
    {
      AddParamsAgreeing(map[], all, i + 1);
    }
    if "override" !in locations {
      AddParamsAgreeing(map[], all, 0);
    }
  }

  /**
   * A site plugin's parameters: the override flag and one object parameter
   * per listed location, holding that location's descriptor; a location
   * listed twice is declared once.
   */
  lemma SitePluginParams(svc: Services, ext: string, g: Gathered, key: string)
    requires ConstantsOk(svc) && key in g.metadatas && SitePlugin(svc, ext, g, key).Some?
    ensures var md := g.metadatas[key];
      var locations := g.locations[md.options["site-name"]];
      var p := SitePlugin(svc, ext, g, key).value;
      p.name == key + " Content Initializer Service" && p.pluginType == XMLDeploymentPlugin && p.setMethod == "addPlugin" &&
      p.initParams.value.Keys == {"override"} + (set l | l in locations) &&
      ("override" !in locations ==> p.initParams.value["override"] == OverrideParam) &&
      forall i :: 0 <= i < |locations| && locations[i] != "override" ==>
        p.initParams.value[locations[i]] == ObjectParam(locations[i], Descriptor(svc, ext, g.versioned, md, locations[i]).value)
  {
    var md := g.metadatas[key];
    var locations := g.locations[md.options["site-name"]];
    var ps := LocationParams(svc, ext, g.versioned, md, locations).value;
    OverrideThenLocationsKeys(locations, ps, [OverrideParam] + ps);
    OverrideThenLocationsValues(locations, ps, [OverrideParam] + ps);
  }

  /** A site plugin is named after its site. */
  lemma SitePluginNamed(svc: Services, ext: string, g: Gathered, key: string)
    requires ConstantsOk(svc) && key in g.metadatas && SitePlugin(svc, ext, g, key).Some?
    ensures SitePlugin(svc, ext, g, key).value.name == key + " Content Initializer Service"
  {
  }

  /** A run that reaches the configuration writes the document made of the gathered sites' plugins. */
  lemma RunDocument(svc: Services, ext: string, selection: seq<string>)
    requires ConstantsOk(svc) && SiteContentsRun(svc, ext, selection).finish.Configure?
    ensures var g := GatherSites(svc, ext, Filtered(selection, ContentSitesPath));
      Coherent(svc, g) && SitePlugins(svc, ext, g, g.sites).Some? &&
      SiteContentsRun(svc, ext, selection).finish.document ==
        SiteContentsDocument(SitePlugins(svc, ext, g, g.sites).value, IgnoredSites(g))
  {
    SitesCoherent(svc, ext, Filtered(selection, ContentSitesPath));
  }

  /** The written document: the initializer component, one group of per-site plugins, and the ignore group when some site other than "shared" was gathered. */
  lemma DocumentShape(svc: Services, ext: string, selection: seq<string>)
    requires ConstantsOk(svc) && SiteContentsRun(svc, ext, selection).finish.Configure?
    ensures var g := GatherSites(svc, ext, Filtered(selection, ContentSitesPath));
      var d := SiteContentsRun(svc, ext, selection).finish.document;
      d.components == [Component(WCMContentInitializerService)] && d.imports == [] &&
      |d.externalComponentPlugins| == (if g.metadatas.Keys <= {"shared"} then 1 else 2) &&
      (!(g.metadatas.Keys <= {"shared"}) ==> d.externalComponentPlugins[1] == IgnoreGroup(IgnoredSites(g))) &&
      (forall x :: x in IgnoredSites(g) <==> x in g.metadatas && x != "shared")
  {
    RunDocument(svc, ext, selection);
    hide SiteContentsRun, GatherSites, SitePlugins, SitePlugin, ContentGroup, IgnoreGroup;
    var g := GatherSites(svc, ext, Filtered(selection, ContentSitesPath));
    IgnoredSitesExactly(svc, g);
  }

  /** The first group holds one plugin per gathered site, in order, each named after its site. */
  lemma DocumentPlugins(svc: Services, ext: string, selection: seq<string>)
    requires ConstantsOk(svc) && SiteContentsRun(svc, ext, selection).finish.Configure?
    ensures var g := GatherSites(svc, ext, Filtered(selection, ContentSitesPath));
      var d := SiteContentsRun(svc, ext, selection).finish.document;
      |d.externalComponentPlugins| >= 1 &&
      |PluginsOf(d.externalComponentPlugins[0])| == |g.sites| &&
      (g.sites != [] ==> d.externalComponentPlugins[0].targetComponent == Some(WCMContentInitializerService)) &&
      (forall i :: 0 <= i < |g.sites| ==>
        PluginsOf(d.externalComponentPlugins[0])[i].name == g.sites[i] + " Content Initializer Service")
  {
    RunDocument(svc, ext, selection);
    hide SiteContentsRun, GatherSites, IgnoredSites, IgnoreGroup, SitePlugins, SitePlugin;
    var g := GatherSites(svc, ext, Filtered(selection, ContentSitesPath));
    var plugins := SitePlugins(svc, ext, g, g.sites).value;
    assert SiteContentsRun(svc, ext, selection).finish.document.externalComponentPlugins[0] == ContentGroup(plugins);
    ContentGroupHolds(plugins);
    forall i | 0 <= i < |g.sites|
      ensures plugins[i].name == g.sites[i] + " Content Initializer Service"
    {
      assert g.sites[i] in g.metadatas;
      SitePluginNamed(svc, ext, g, g.sites[i]);
    }
  }

  /** The source paths in war: form. */
  lemma ContentSourceForm(ext: string)
    ensures ContentSource(ext) == "war:/conf/" + ext + "/wcm/content"
  {
    hide WarForm, Substitute, ReplaceAll;
    assert 'W' !in "/wcm/content" && 'u' !in "/wcm/content";
    ConfWarForm("/wcm/content");
    ConfImportSubstituted("/wcm/content", ext);
  }

  /** The declared import, once substituted, is the war: form of the configuration entry the run writes. */
  lemma ConfigurationImported(ext: string)
    ensures Imports(Substitute(ConfigurationPaths[0], ext), WrittenName(WcmContentLocation + WcmConfigurationName, ext))
  {
    assert 'W' !in "/conf/" && 'W' !in Placeholder && 'W' !in "/wcm/content";
    ImportNamesEntry(WcmContentDir, WcmConfigurationName, ext);
  }

  // -------------------------------------------------------------------------
  // The handler.

  /** A metadata entry. */
  method GatherMetadata(svc: Services, g: Gathered, site: string, e: Entry) returns (r: Gathered)
    ensures r == MetadataStep(svc, g, site, e)
  {
    var m := svc.parseSiteMetadata(e.content);
    if m.None? {
      return g.(failed := true);
    }
    r := g;
    if site !in r.metadatas {
      r := r.(sites := r.sites + [site]);
    }
    r := r.(metadatas := r.metadatas[site := m.value]);
  }

  /** A content entry: listed or recorded as a version history, then copied. */
  method GatherContent(zos: ZipOutput, svc: Services, ext: string, g: Gathered, site: string, e: Entry, ghost base: seq<Entry>)
    returns (r: Gathered)
    requires ConstantsOk(svc) && zos.Valid() && zos.entries == PutAll(base, g.writes)
    modifies zos
    ensures r == ContentStep(svc, ext, g, site, e)
    ensures zos.Valid() && zos.entries == PutAll(base, r.writes)
  {
    r := g;
    var parts := Split(e.name, svc.jcrDataSeparator);
    if |parts| != 2 {
      return;
    }
    if site !in r.locations {
      r := r.(locations := r.locations[site := []]);
    }
    var location := parts[1];
    if EndsWith(location, svc.versionHistorySuffix) {
      r := r.(versioned := r.versioned + {ReplaceAll(location, svc.versionHistorySuffix, ".xml")});
    } else {
      r := r.(locations := r.locations[site := r.locations[site] + [location]]);
    }
    PutAllSnoc(base, r.writes, ContentCopy(ext, location, e));
    WriteStream(zos, WcmContentLocation + location, ext, e.content, false);
    r := r.(writes := r.writes + [ContentCopy(ext, location, e)]);
  }

  /** One entry of a site export: metadata recorded, an SEO file skipped, a content file copied. */
  method GatherEntry(zos: ZipOutput, svc: Services, ext: string, g: Gathered, e: Entry, ghost base: seq<Entry>)
    returns (r: Gathered)
    requires ConstantsOk(svc) && zos.Valid() && zos.entries == PutAll(base, g.writes)
    modifies zos
    ensures r == Step(svc, ext, g, e)
    ensures zos.Valid() && zos.entries == PutAll(base, r.writes)
  {
    var site := SiteNameOf(svc.siteContentsRootPath, e.name);
    if site.None? {
      return g.(failed := true);
    }
    if EndsWith(e.name, "metadata.xml") {
      r := GatherMetadata(svc, g, site.value, e);
    } else if EndsWith(e.name, "seo.xml") {
      r := g;
    } else {
      r := GatherContent(zos, svc, ext, g, site.value, e, base);
    }
  }

  /** The entry loop of one site export; a failed entry returns at once. */
  method GatherSiteEntries(zos: ZipOutput, svc: Services, ext: string, g: Gathered, es: seq<Entry>, ghost base: seq<Entry>)
    returns (r: Gathered)
    requires ConstantsOk(svc) && zos.Valid() && !g.failed && zos.entries == PutAll(base, g.writes)
    modifies zos
    ensures r == GatherEntries(svc, ext, g, es)
    ensures zos.Valid() && zos.entries == PutAll(base, r.writes)
  {
    r := g;
    for j := 0 to |es|
      invariant r == GatherEntries(svc, ext, g, es[..j]) && !r.failed
      invariant zos.Valid() && zos.entries == PutAll(base, r.writes)
    {
      assert es[..j + 1][..j] == es[..j];
      assert GatherEntries(svc, ext, g, es[..j + 1]) == Step(svc, ext, r, es[j]);
      r := GatherEntry(zos, svc, ext, r, es[j], base);
      if r.failed {
        EntriesFailureSticks(svc, ext, g, es, j + 1);
        return;
      }
    }
    assert es[..|es|] == es;
  }

  /** The site loop: one export per selected site with the fixed filters; a failed export is skipped. */
  method GatherAll(h: Handler, zos: ZipOutput, svc: Services, ext: string, resources: seq<string>) returns (g: Gathered)
    requires ConstantsOk(svc) && zos.Valid()
    modifies h, zos
    ensures g == GatherSites(svc, ext, resources)
    ensures zos.Valid() && zos.entries == PutAll(old(zos.entries), g.writes)
    ensures h.configurationPaths == old(h.configurationPaths)
  {
    g := Nothing;
    for k := 0 to |resources|
      invariant g == GatherSites(svc, ext, resources[..k]) && !g.failed
      invariant zos.Valid() && zos.entries == PutAll(old(zos.entries), g.writes)
      invariant h.configurationPaths == old(h.configurationPaths)
    {
      assert resources[..k + 1][..k] == resources[..k];
      var zip := Export(h, svc, resources[k], SiteFilters);
      if zip.Some? {
        g := GatherSiteEntries(zos, svc, ext, g, zip.value, old(zos.entries));
        if g.failed {
          SitesFailureSticks(svc, ext, resources, k + 1);
          return;
        }
      }
    }
    assert resources[..|resources|] == resources;
  }

  lemma LocationParamsSnoc(svc: Services, ext: string, versioned: set<string>, md: SiteMetadata, locations: seq<string>, k: nat)
    requires ConstantsOk(svc) && k < |locations|
    ensures var before := LocationParams(svc, ext, versioned, md, locations[..k]);
      var d := Descriptor(svc, ext, versioned, md, locations[k]);
      LocationParams(svc, ext, versioned, md, locations[..k + 1]) ==
        if before.None? || d.None? then None else Some(before.value + [ObjectParam(locations[k], d.value)])
  {
    assert locations[..k + 1][..k] == locations[..k];
  }

  /** Declaring one more parameter after the flag and earlier parameters. */
  lemma DeclareOneMore(ps: seq<Param>, param: Param)
    ensures AddParam(AddParams(map[], [OverrideParam] + ps), param) == AddParams(map[], [OverrideParam] + (ps + [param]))
  {
    assert [OverrideParam] + (ps + [param]) == ([OverrideParam] + ps) + [param];
    AddParamsSnoc(map[], [OverrideParam] + ps, param);
  }

  /** The descriptor loop of one site: the override flag, then one object parameter per location. */
  method BuildSiteParams(svc: Services, ext: string, versioned: set<string>, md: SiteMetadata, locations: seq<string>)
    returns (params: Option<InitParams>)
    requires ConstantsOk(svc)
    ensures var ps := LocationParams(svc, ext, versioned, md, locations);
      params == (if ps.None? then None else Some(AddParams(map[], [OverrideParam] + ps.value)))
  {
    var p := AddParam(map[], OverrideParam);
    SingleParam(OverrideParam);
    ghost var ps: seq<Param> := [];
    assert [OverrideParam] + ps == [OverrideParam];
    for k := 0 to |locations|
      invariant LocationParams(svc, ext, versioned, md, locations[..k]) == Some(ps)
      invariant p == AddParams(map[], [OverrideParam] + ps)
    {
      var d := Descriptor(svc, ext, versioned, md, locations[k]);
      if d.None? {
        return None;
      }
      var param := ObjectParam(locations[k], d.value);
      DeclareOneMore(ps, param);
      LocationParamsSnoc(svc, ext, versioned, md, locations, k);
      p := AddParam(p, param);
      ps := ps + [param];
    }
    assert locations[..|locations|] == locations;
    params := Some(p);
  }

  /** One iteration of the plugin loop: the plugin of a site with metadata, or None when its locations are missing. */
  method BuildSitePlugin(svc: Services, ext: string, g: Gathered, key: string) returns (plugin: Option<ComponentPlugin>)
    requires ConstantsOk(svc) && key in g.metadatas
    ensures plugin == SitePlugin(svc, ext, g, key)
  {
    var md := g.metadatas[key];
    if "site-name" !in md.options || md.options["site-name"] !in g.locations {
      return None;
    }
    var params := BuildSiteParams(svc, ext, g.versioned, md, g.locations[md.options["site-name"]]);
    if params.None? {
      return None;
    }
    plugin := Some(CreateComponentPlugin(key + " Content Initializer Service", XMLDeploymentPlugin, "addPlugin", params, []));
  }

  /** The plugin loop: one plugin per site with metadata, each added to the content group. */
  method BuildContentGroup(svc: Services, ext: string, g: Gathered) returns (group: Option<ExternalComponentPlugins>)
    requires ConstantsOk(svc) && forall k :: k in g.sites ==> k in g.metadatas
    ensures var ps := SitePlugins(svc, ext, g, g.sites);
      group == (if ps.None? then None else Some(ContentGroup(ps.value)))
  {
    hide SitePlugin, SitePlugins;
    var cg := NoPlugins;
    ghost var plugins: seq<ComponentPlugin> := [];
    for k := 0 to |g.sites|
      invariant |plugins| == k && forall i :: 0 <= i < k ==> Some(plugins[i]) == SitePlugin(svc, ext, g, g.sites[i])
      invariant cg == ContentGroup(plugins)
    {
      var plugin := BuildSitePlugin(svc, ext, g, g.sites[k]);
      if plugin.None? {
        return None;
      }
      assert (plugins + [plugin.value])[..|plugins|] == plugins;
      cg := AddComponentPlugin(cg, WCMContentInitializerService, plugin.value);
      plugins := plugins + [plugin.value];
    }
    assert SitePlugins(svc, ext, g, g.sites).value == plugins;
    group := Some(cg);
  }

  /** writeData */
  method WriteData(h: Handler, zos: ZipOutput, svc: Services, ext: string, selection: seq<string>) returns (outcome: Outcome)
    requires ConstantsOk(svc) && zos.Valid()
    modifies h, zos
    ensures zos.Valid()
    ensures zos.entries == Apply(old(zos.entries), ext, SiteContentsRun(svc, ext, selection))
    ensures outcome == ResultOf(old(zos.entries), ext, SiteContentsRun(svc, ext, selection))
    ensures h.tempFiles == (if Filtered(selection, ContentSitesPath) == [] then old(h.tempFiles) else [])
    ensures h.configurationPaths == old(h.configurationPaths)
  {
    var filtered := FilterSelectedResources(selection, ContentSitesPath);
    if filtered == [] {
      DeclinedLeavesArchive(zos.entries, ext);
      return Returned(false);
    }
    var g := GatherAll(h, zos, svc, ext, filtered);
    ClearTempFiles(h);
    if g.failed {
      return Returned(false);
    }
    SitesCoherent(svc, ext, filtered);
    var ignored := RemoveFirst(g.sites, "shared");
    var group := BuildContentGroup(svc, ext, g);
    if group.None? {
      return Threw;
    }
    var configuration := Configuration([Component(WCMContentInitializerService)],
      [group.value] + (if ignored == [] then [] else [IgnoreGroup(ignored)]), []);
    ApplyAfterWrites(old(zos.entries), ext, g.writes, WcmContentLocation + WcmConfigurationName, configuration);
    var written := WriteConfiguration(zos, WcmContentLocation + WcmConfigurationName, ext, configuration);
    outcome := Returned(written);
  }
}
