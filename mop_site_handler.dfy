/**
 * The site handler (MOPSiteConfigurationHandler), one instance per site type
 * ("portal", "group", "user"): copies each selected site's exported files
 * under the portal configuration directory and declares the sites to the
 * user-portal configuration service.
 */
module MopSiteHandler {
  import opened Wrappers
  import opened Strings
  import opened KernelXml
  import opened Archive
  import opened Paths
  import opened Platform
  import opened Utils
  import opened HandlerBase

  const SitesConfigurationDir := "/conf/" + Placeholder + "/portal/"
  const SitesConfigurationLocation := "WEB-INF" + SitesConfigurationDir
  const SitesConfigurationName := "-sites-configuration.xml"

  /** The managed path below which the sites of a type are listed. */
  function SiteResourcePath(siteType: string): (r: string)
    ensures r != []
  {
    "/site/" + siteType + "sites/"
  }

  /** The configuration file of a site type. */
  function SitesConfigurationFile(siteType: string): string {
    SitesConfigurationLocation + siteType + SitesConfigurationName
  }

  /** The constructor: the handler of one site type, declaring that type's configuration file. */
  method NewMopSiteHandler(siteType: string) returns (h: Handler)
    ensures fresh(h)
    ensures h.kind == MopSite(siteType) && h.tempFiles == []
    ensures h.configurationPaths == [WarForm(SitesConfigurationLocation) + siteType + SitesConfigurationName]
  {
    h := new Handler(MopSite(siteType), [WarForm(SitesConfigurationLocation) + siteType + SitesConfigurationName]);
  }

  /** An exported site file, copied under the portal configuration directory with its bytes unchanged. */
  function SiteEntry(ext: string, e: Entry): Entry {
    Entry(StreamEntryName(SitesConfigurationLocation + e.name, ext), e.content)
  }

  function SiteEntries(ext: string, es: seq<Entry>): (r: seq<Entry>)
    ensures |r| == |es| && forall i :: 0 <= i < |es| ==> r[i] == SiteEntry(ext, es[i])
  {
    seq(|es|, i requires 0 <= i < |es| => SiteEntry(ext, es[i]))
  }

  /** The site names: each selected path with every occurrence of the site resource path removed. */
  function SiteNames(paths: seq<string>, siteType: string): set<string> {
    set p | p in paths :: ReplaceAll(p, SiteResourcePath(siteType), "")
  }

  /**
   * The copies written while exporting the selected sites in order, and
   * whether an export failed (the exception escapes, ending the loop).
   */
  function SiteWrites(svc: Services, ext: string, paths: seq<string>): (seq<Entry>, bool)
    decreases |paths|
  {
    if paths == [] then ([], false)
    else SiteStep(svc, ext, SiteWrites(svc, ext, paths[..|paths| - 1]), paths[|paths| - 1])
  }

  /** One pass of the export loop: a failed export ends the run, a successful one adds its copies. */
  function SiteStep(svc: Services, ext: string, before: (seq<Entry>, bool), path: string): (seq<Entry>, bool) {
    var zip := ExportOf(svc, path, []);
    if before.1 then before
    else if zip.None? then (before.0, true)
    else (before.0 + SiteEntries(ext, zip.value), false)
  }

  /** The listener plugin declaring the sites, with the name-substituted war: template location. */
  function SitesPlugin(siteType: string, ext: string, siteNames: set<string>): ComponentPlugin {
    var config := NewPortalConfig(siteType, siteNames, Substitute(WarForm(SitesConfigurationLocation), ext));
    var params := AddParam(map[], ObjectParam(siteType + ".configuration", config));
    CreateComponentPlugin(siteType + ".config.user.listener", NewPortalConfigListener, "initListener", Some(params), [])
  }

  /** writeData */
  function SitesRun(svc: Services, ext: string, siteType: string, selection: seq<string>): Run {
    var filtered := Filtered(selection, SiteResourcePath(siteType));
    if filtered == [] then Declined
    else
      var (writes, failed) := SiteWrites(svc, ext, filtered);
      if failed then Run(writes, Done(Threw))
      else
        Run(writes, Configure(SitesConfigurationFile(siteType),
          PluginDocument([SinglePluginGroup(UserPortalConfigService, SitesPlugin(siteType, ext, SiteNames(filtered, siteType)))])))
  }

  /**
   * Every entry written is the copy of an entry exported for some selected
   * path, and when no export failed every exported entry of every path is
   * copied.
   */
  lemma {:induction false} SiteWritesExactly(svc: Services, ext: string, paths: seq<string>)
    ensures forall w :: w in SiteWrites(svc, ext, paths).0 ==>
      exists i :: 0 <= i < |paths| && ExportOf(svc, paths[i], []).Some? &&
        exists e :: e in ExportOf(svc, paths[i], []).value && w == SiteEntry(ext, e)
    ensures !SiteWrites(svc, ext, paths).1 ==>
      forall i, e :: 0 <= i < |paths| && ExportOf(svc, paths[i], []).Some? && e in ExportOf(svc, paths[i], []).value ==>
        SiteEntry(ext, e) in SiteWrites(svc, ext, paths).0
    ensures !SiteWrites(svc, ext, paths).1 <==> forall i :: 0 <= i < |paths| ==> ExportOf(svc, paths[i], []).Some?
    decreases |paths|
  {
    hide SiteEntry, SiteEntries, ExportOf;
    if paths != [] {
      var init := paths[..|paths| - 1];
      SiteWritesExactly(svc, ext, init);
      assert forall i :: 0 <= i < |init| ==> init[i] == paths[i];
      var zip := ExportOf(svc, paths[|paths| - 1], []);
      if zip.Some? {
        var copies := SiteEntries(ext, zip.value);
        forall e | e in zip.value ensures SiteEntry(ext, e) in copies {
          var j :| 0 <= j < |zip.value| && zip.value[j] == e;
          assert copies[j] == SiteEntry(ext, e);
        }
        forall w | w in copies ensures exists e :: e in zip.value && w == SiteEntry(ext, e) {
          var j :| 0 <= j < |copies| && copies[j] == w;
          assert zip.value[j] in zip.value;
        }
      }
    }
  }

  /**
   * A successful run holds one plugin "<type>.config.user.listener" on the
   * user-portal configuration service, whose one object parameter declares
   * the site type as owner type, the selected site names as predefined
   * owners, and the name-substituted war: template location.
   */
  lemma ListenerDeclaresSites(svc: Services, ext: string, siteType: string, selection: seq<string>)
    requires SitesRun(svc, ext, siteType, selection).finish.Configure?
    ensures var d := SitesRun(svc, ext, siteType, selection).finish.document;
      d.externalComponentPlugins == [ExternalComponentPlugins(Some(UserPortalConfigService), Some([SitesPlugin(siteType, ext, SiteNames(Filtered(selection, SiteResourcePath(siteType)), siteType))]))]
    ensures var p := SitesPlugin(siteType, ext, SiteNames(Filtered(selection, SiteResourcePath(siteType)), siteType));
      p.name == siteType + ".config.user.listener" && p.initParams.Some? &&
      p.initParams.value == map[siteType + ".configuration" := ObjectParam(siteType + ".configuration",
        NewPortalConfig(siteType, SiteNames(Filtered(selection, SiteResourcePath(siteType)), siteType), Substitute(WarForm(SitesConfigurationLocation), ext)))]
  {
    var obj := ObjectParam(siteType + ".configuration",
        NewPortalConfig(siteType, SiteNames(Filtered(selection, SiteResourcePath(siteType)), siteType), Substitute(WarForm(SitesConfigurationLocation), ext)));
    assert AddParam(map[], obj).Keys == {obj.name};
  }

  /** For a site type without a 'W', the declared import is the war: form of the configuration entry written. */
  lemma ConfigurationImported(siteType: string, ext: string)
    requires 'W' !in siteType
    ensures Imports(Substitute(WarForm(SitesConfigurationLocation) + siteType + SitesConfigurationName, ext),
                    WrittenName(SitesConfigurationFile(siteType), ext))
  {
    assert 'W' !in "/conf/" && 'W' !in Placeholder && 'W' !in "/portal/" && 'W' !in SitesConfigurationName;
    ImportNamesEntry(SitesConfigurationDir, siteType + SitesConfigurationName, ext);
    assert WarForm(SitesConfigurationLocation) + siteType + SitesConfigurationName == WarForm(SitesConfigurationLocation) + (siteType + SitesConfigurationName);
    assert SitesConfigurationFile(siteType) == SitesConfigurationLocation + (siteType + SitesConfigurationName);
  }

  /** The copy loop for one export. */
  method CopySiteEntries(zos: ZipOutput, ext: string, es: seq<Entry>)
    requires zos.Valid()
    modifies zos
    ensures zos.Valid()
    ensures zos.entries == PutAll(old(zos.entries), SiteEntries(ext, es))
  {
    hide SiteEntries, StreamEntryName;
    for j := 0 to |es|
      invariant zos.Valid()
      invariant zos.entries == PutAll(old(zos.entries), SiteEntries(ext, es[..j]))
    {
      assert SiteEntries(ext, es[..j + 1]) == SiteEntries(ext, es[..j]) + [SiteEntry(ext, es[j])];
      PutAllSnoc(old(zos.entries), SiteEntries(ext, es[..j]), SiteEntry(ext, es[j]));
      WriteStream(zos, SitesConfigurationLocation + es[j].name, ext, es[j].content, false);
    }
    assert es[..|es|] == es;
  }

  /** One pass of the export loop: exports a selected site and, when the export succeeds, copies its files. */
  method ExportSite(h: Handler, zos: ZipOutput, svc: Services, ext: string, path: string,
                    ghost start: seq<Entry>, ghost before: seq<Entry>)
    returns (failed: bool, ghost after: seq<Entry>)
    requires zos.Valid() && zos.entries == PutAll(start, before)
    modifies h, zos
    ensures SiteStep(svc, ext, (before, false), path) == (after, failed)
    ensures zos.Valid() && zos.entries == PutAll(start, after)
    ensures h.configurationPaths == old(h.configurationPaths)
  {
    hide SiteEntries, StreamEntryName;
    var zip := Export(h, svc, path, []);
    if zip.None? {
      return true, before;
    }
    PutAllAppend(start, before, SiteEntries(ext, zip.value));
    CopySiteEntries(zos, ext, zip.value);
    failed, after := false, before + SiteEntries(ext, zip.value);
  }

  /** writeData */
  method WriteData(h: Handler, zos: ZipOutput, svc: Services, ext: string, siteType: string, selection: seq<string>)
    returns (outcome: Outcome)
    requires zos.Valid()
    modifies h, zos
    ensures zos.Valid()
    ensures zos.entries == Apply(old(zos.entries), ext, SitesRun(svc, ext, siteType, selection))
    ensures outcome == ResultOf(old(zos.entries), ext, SitesRun(svc, ext, siteType, selection))
    ensures h.tempFiles == (if Filtered(selection, SiteResourcePath(siteType)) == [] then old(h.tempFiles) else [])
    ensures h.configurationPaths == old(h.configurationPaths)
  {
    hide SiteStep, SiteEntries, SiteEntry, SitesPlugin, StreamEntryName;
    var filtered := FilterSelectedResources(selection, SiteResourcePath(siteType));
    if filtered == [] {
      DeclinedLeavesArchive(zos.entries, ext);
      return Returned(false);
    }
    var siteNames: set<string> := {};
    ghost var writes: seq<Entry> := [];
    for k := 0 to |filtered|
      invariant SiteWrites(svc, ext, filtered[..k]) == (writes, false)
      invariant siteNames == SiteNames(filtered[..k], siteType)
      invariant zos.Valid() && zos.entries == PutAll(old(zos.entries), writes)
      invariant h.configurationPaths == old(h.configurationPaths)
    {
      assert filtered[..k + 1][..k] == filtered[..k];
      assert filtered[..k + 1] == filtered[..k] + [filtered[k]];
      siteNames := siteNames + {ReplaceAll(filtered[k], SiteResourcePath(siteType), "")};
      var failed;
      failed, writes := ExportSite(h, zos, svc, ext, filtered[k], old(zos.entries), writes);
      if failed {
        ClearTempFiles(h);
        FailureSticks(svc, ext, filtered, k + 1);
        return Threw;
      }
    }
    ClearTempFiles(h);
    assert filtered[..|filtered|] == filtered;
    var group := SinglePluginGroup(UserPortalConfigService, SitesPlugin(siteType, ext, siteNames));
    ApplyAfterWrites(old(zos.entries), ext, writes, SitesConfigurationFile(siteType), PluginDocument([group]));
    var ok := WritePlugins(zos, SitesConfigurationFile(siteType), ext, [group]);
    outcome := Returned(ok);
  }

  /** Once an export has failed, the run is a failure. */
  lemma {:induction false} FailureSticks(svc: Services, ext: string, paths: seq<string>, k: nat)
    requires k <= |paths| && SiteWrites(svc, ext, paths[..k]).1
    ensures SiteWrites(svc, ext, paths) == SiteWrites(svc, ext, paths[..k])
    decreases |paths| - k
  {
    if k < |paths| {
      assert paths[..k + 1][..k] == paths[..k];
      FailureSticks(svc, ext, paths, k + 1);
    } else {
      assert paths[..k] == paths;
    }
  }
}
