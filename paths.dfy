/**
 * The managed-resource paths the generator selects from (ExtensionGenerator),
 * the "custom-extension" placeholder every archive path and configuration
 * carries until the extension name is substituted for it, and the
 * `war:` form under which a WAR's WEB-INF directory is imported.
 */
module Paths {
  import opened Strings

  // Managed-resource paths, one per category of exportable resource.
  const SitesPortalPath := "/site/portalsites"
  const SitesGroupPath := "/site/groupsites"
  const SitesUserPath := "/site/usersites"
  const ContentSitesPath := "/content/sites"
  const EcmTemplatesApplicationClvPath := "/ecmadmin/" + "templates/applications/content-list-viewer"
  const EcmTemplatesDocumentTypePath := "/ecmadmin/templates/nodetypes"
  const EcmTemplatesMetadataPath := "/ecmadmin/templates/metadata"
  const EcmTaxonomyPath := "/ecmadmin/taxonomy"
  const EcmQueryPath := "/ecmadmin/queries"
  const EcmDrivePath := "/ecmadmin/drive"
  const EcmScriptPath := "/ecmadmin/script"
  const EcmActionPath := "/ecmadmin/action"
  const EcmNodetypePath := "/ecmadmin/nodetype"
  const EcmViewConfigurationPath := "/ecmadmin/view/configuration"
  const EcmViewTemplatesPath := "/ecmadmin/view/templates"
  const RegistryPath := "/registry"
  const IdeRestPath := "/ide/rest::"
  const GadgetPath := "/gadget::"

  /** The text that stands for the extension name in archive paths and file contents. */
  const Placeholder := "custom-extension"

  /** AbstractConfigurationHandler.DMS_CONFIGURATION_LOCATION, and its part below WEB-INF. */
  const DmsDir := "/conf/" + Placeholder + "/dms/"
  const DmsLocation := "WEB-INF" + DmsDir

  /** `s.replace("custom-extension", extensionName)` */
  function Substitute(s: string, ext: string): string {
    ReplaceAll(s, Placeholder, ext)
  }

  /** `s.replace("WEB-INF", "war:")`: the import form of a path inside the WAR. */
  function WarForm(s: string): string {
    ReplaceAll(s, "WEB-INF", "war:")
  }

  /** The name an archive writer gives an entry: the name substituted, one leading '/' dropped. */
  function WrittenName(entryName: string, ext: string): string {
    StripLeadingSlash(Substitute(entryName, ext))
  }

  /** `importPath` is the `war:` import of the WAR entry `entryName`. */
  predicate Imports(importPath: string, entryName: string) {
    "WEB-INF" <= entryName && importPath == "war:" + entryName[|"WEB-INF"|..]
  }

  /** Text before the placeholder that holds no 'c' passes through substitution unchanged. */
  lemma SubstituteKeepsHead(head: string, tail: string, ext: string)
    requires 'c' !in head
    ensures Substitute(head + tail, ext) == head + Substitute(tail, ext)
  {
    ReplaceKeepsHead(head, tail, Placeholder, ext);
  }

  /**
   * A configuration file at "WEB-INF" + `dir` + `name`, whose import path is
   * declared as `WarForm("WEB-INF" + dir) + name`, is exactly the entry that
   * the writer produces once the extension name is substituted in both.
   */
  lemma ImportNamesEntry(dir: string, name: string, ext: string)
    requires 'W' !in dir
    ensures Imports(Substitute(WarForm("WEB-INF" + dir) + name, ext), WrittenName("WEB-INF" + dir + name, ext))
  {
    ReplaceLeading("WEB-INF", dir, "war:");
    ReplaceMissingChar(dir, "WEB-INF", "war:", 'W');
    assert WarForm("WEB-INF" + dir) + name == "war:" + (dir + name);
    SubstituteKeepsHead("war:", dir + name, ext);
    assert "WEB-INF" + dir + name == "WEB-INF" + (dir + name);
    SubstituteKeepsHead("WEB-INF", dir + name, ext);
    var w := "WEB-INF" + Substitute(dir + name, ext);
    assert w[0] == 'W' && !("/" <= w);
    assert "WEB-INF" <= w && w[|"WEB-INF"|..] == Substitute(dir + name, ext);
  }

  /** The same, for a file whose whole import path is declared in `war:` form. */
  lemma ImportNamesFile(dir: string, ext: string)
    requires 'W' !in dir
    ensures Imports(Substitute(WarForm("WEB-INF" + dir), ext), WrittenName("WEB-INF" + dir, ext))
  {
    ImportNamesEntry(dir, "", ext);
    assert "WEB-INF" + dir + "" == "WEB-INF" + dir;
    assert WarForm("WEB-INF" + dir) + "" == WarForm("WEB-INF" + dir);
  }

  /** Text appended after a directory ending in a separator is left alone by WarForm unless it holds "WEB-INF" itself. */
  lemma WarFormAppend(dir: string, name: string)
    requires dir != [] && 'W' !in dir && dir[|dir| - 1] !in "WEB-INF" && !Contains(name, "WEB-INF")
    ensures WarForm("WEB-INF" + dir + name) == WarForm("WEB-INF" + dir) + name
  {
    var head := "WEB-INF" + dir;
    assert head[|head| - 1] == dir[|dir| - 1];
    ReplaceSplit(head, name, "WEB-INF", "war:");
    ReplaceAbsent(name, "WEB-INF", "war:");
  }

  /** The DMS location in import form. */
  lemma DmsWarForm()
    ensures WarForm(DmsLocation) == "war:" + DmsDir
  {
    assert 'W' !in "/conf/" && 'W' !in Placeholder && 'W' !in "/dms/";
    ReplaceLeading("WEB-INF", DmsDir, "war:");
    ReplaceMissingChar(DmsDir, "WEB-INF", "war:", 'W');
  }

  /** A file in the DMS directory, whose import path is declared as the DMS location in war: form followed by its name. */
  lemma DmsImportNames(name: string, ext: string)
    ensures Imports(Substitute(WarForm(DmsLocation) + name, ext), WrittenName(DmsLocation + name, ext))
  {
    assert 'W' !in "/conf/" && 'W' !in Placeholder && 'W' !in "/dms/";
    ImportNamesEntry(DmsDir, name, ext);
  }

  /** A location below "WEB-INF/conf/" and the placeholder, in war: form. */
  lemma ConfWarForm(tail: string)
    requires 'W' !in tail
    ensures WarForm("WEB-INF" + ("/conf/" + Placeholder + tail)) == "war:/conf/" + (Placeholder + tail)
  {
    hide ReplaceAll;
    var dir := "/conf/" + Placeholder + tail;
    assert 'W' !in "/conf/" && 'W' !in Placeholder;
    assert 'W' !in dir;
    ReplaceLeading("WEB-INF", dir, "war:");
    ReplaceMissingChar(dir, "WEB-INF", "war:", 'W');
    assert "war:/conf/" == "war:" + "/conf/";
    assert "war:" + dir == ("war:" + "/conf/") + (Placeholder + tail);
  }

  /** An import below the extension's configuration directory, with the extension name substituted. */
  lemma ConfImportSubstituted(tail: string, ext: string)
    requires 'u' !in tail
    ensures Substitute("war:/conf/" + (Placeholder + tail), ext) == "war:/conf/" + ext + tail
  {
    assert 'u' in Placeholder && 'u' !in "war:/conf/" && '/' !in Placeholder;
    ReplaceBetween("war:/conf/", Placeholder, tail, ext, 'u');
  }

  /** The DMS location in import form, with the extension name substituted. */
  lemma DmsImportForm(ext: string)
    ensures Substitute(WarForm(DmsLocation), ext) == "war:/conf/" + ext + "/dms/"
  {
    DmsWarForm();
    assert "war:" + DmsDir == "war:/conf/" + (Placeholder + "/dms/") by {
      assert "war:/conf/" == "war:" + "/conf/";
    }
    assert 'u' !in "/dms/";
    ConfImportSubstituted("/dms/", ext);
  }
}
