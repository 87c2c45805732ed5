/**
 * The content-list-viewer templates handler (CLVTemplatesConfigurationHandler):
 * the application-templates handler with the content list viewer's home,
 * configuration file, staging path and portlet name.
 */
module ClvTemplatesHandler {
  import opened Strings
  import opened Archive
  import opened Paths
  import opened HandlerBase
  import opened AppTemplatesHandler

  const ClvTemplatesDir := "templates/applications/" + "content-list-viewer"

  /** APPLICATION_CLV_CONFIGURATION_LOCATION: the templates' home in the WAR. */
  const ClvTemplatesHome := DmsLocation + ClvTemplatesDir

  /** APPLICATION_CLV_CONFIGURATION_NAME */
  const ClvConfigurationName := "application-clv-templates-" + "configuration.xml"

  /** The one import this handler declares. */
  const ConfigurationPaths := [WarForm(DmsLocation) + ClvConfigurationName]

  /** What the constructor passes to the application-templates handler. */
  const ClvSettings := Settings(ClvTemplatesHome, ClvConfigurationName, EcmTemplatesApplicationClvPath, "content-list-viewer")

  /** The constructor. */
  method NewClvTemplatesHandler() returns (h: Handler)
    ensures fresh(h)
    ensures h.kind == ClvTemplates && h.tempFiles == [] && h.configurationPaths == ConfigurationPaths
  {
    h := new Handler(ClvTemplates, ConfigurationPaths);
  }

  /** The templates' home in war: form. */
  lemma ClvHomeWarForm()
    ensures WarForm(ClvTemplatesHome) == "war:" + DmsDir + ClvTemplatesDir
  {
    assert 'W' !in "/conf/" && 'W' !in Placeholder && 'W' !in "/dms/";
    assert 'W' !in "templates/applications/" && 'W' !in "content-list-viewer";
    MissingCharNotContained(ClvTemplatesDir, "WEB-INF", 'W');
    WarFormAppend(DmsDir, ClvTemplatesDir);
    DmsWarForm();
  }

  /** The same text, cut around the placeholder. */
  lemma ClvHomeAroundPlaceholder()
    ensures "war:" + DmsDir + ClvTemplatesDir == "war:/conf/" + (Placeholder + ("/dms/" + ClvTemplatesDir))
  {
    assert "war:/conf/" == "war:" + "/conf/";
    assert DmsDir == "/conf/" + Placeholder + "/dms/";
  }

  /** The "portlet.template.path" parameter: the templates' home in war: form, name substituted. */
  lemma ClvTemplatePath(ext: string)
    ensures Substitute(WarForm(ClvSettings.templatesHome), ext) == "war:/conf/" + ext + "/dms/" + ClvTemplatesDir
  {
    ClvHomeWarForm();
    ClvHomeAroundPlaceholder();
    var tail := "/dms/" + ClvTemplatesDir;
    assert 'u' !in tail by {
      assert 'u' !in "templates/applications/" && 'u' !in "content-list-viewer";
    }
    ConfImportSubstituted(tail, ext);
  }

  /** The declared import, once substituted, is the war: form of the configuration entry the run writes. */
  lemma ConfigurationImported(ext: string)
    ensures Imports(Substitute(ConfigurationPaths[0], ext), WrittenName(DmsLocation + ClvSettings.configurationName, ext))
  {
    DmsImportNames(ClvConfigurationName, ext);
  }

  /** A text with a single '/' cannot hold the staging path followed by '/', which has several. */
  lemma OneSlashMissesStaging(category: string, name: string)
    requires '/' !in category && '/' !in name
    ensures !Contains(category + "/" + name, EcmTemplatesApplicationClvPath + "/")
  {
    var rest := category + "/" + name;
    var p := EcmTemplatesApplicationClvPath + "/";
    assert p[0] == '/' && p[9] == '/';
  }

  /**
   * A selected template "<staging path>/<category>/<name>" is declared under
   * that category and template name.
   */
  lemma ClvTemplateParsed(titles: map<string, string>, category: string, name: string)
    requires '/' !in category && '/' !in name && name != []
    ensures var r := TemplateParam(ClvSettings, titles, EcmTemplatesApplicationClvPath + "/" + category + "/" + name);
      r.Some? && r.value.obj.category == category && r.value.obj.templateName == name
  {
    OneSlashMissesStaging(category, name);
    TemplatePathParsed(ClvSettings, titles, category, name);
  }
}
