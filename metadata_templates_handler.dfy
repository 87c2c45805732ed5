/**
 * The metadata templates handler (MetadataTemplatesConfigurationHandler):
 * the DMS templates handler over the metadata templates, declared on
 * the metadata service.
 */
module MetadataTemplatesHandler {
  import opened Strings
  import opened KernelXml
  import opened Archive
  import opened Paths
  import opened HandlerBase
  import opened DmsTemplatesHandler

  const MetadataTemplatesDir := "templates/" + "metadata"

  /** METADATA_TEMPLATES_CONFIGURATION_LOCATION */
  const MetadataTemplatesHome := DmsLocation + MetadataTemplatesDir

  /** METADATA_TEMPLATES_CONFIGURATION_NAME */
  const MetadataConfigurationName := "metadata-templates-" + "configuration.xml"

  /** The one import this handler declares. */
  const ConfigurationPaths := [WarForm(DmsLocation) + MetadataConfigurationName]

  const MetadataSettings := Settings(EcmTemplatesMetadataPath, MetadataTemplatesHome, MetadataConfigurationName,
    "metadata.template.configuration", "addPlugins", MetadataService)

  /** The constructor. */
  method NewMetadataTemplatesHandler() returns (h: Handler)
    ensures fresh(h)
    ensures h.kind == Kind.MetadataTemplates && h.tempFiles == [] && h.configurationPaths == ConfigurationPaths
  {
    h := new Handler(Kind.MetadataTemplates, ConfigurationPaths);
  }

  /** The templates' home in war: form. */
  lemma HomeWarForm()
    ensures WarForm(MetadataTemplatesHome) == "war:" + DmsDir + MetadataTemplatesDir
  {
    assert 'W' !in "/conf/" && 'W' !in Placeholder && 'W' !in "/dms/";
    assert 'W' !in "templates/" && 'W' !in MetadataTemplatesDir;
    MissingCharNotContained(MetadataTemplatesDir, "WEB-INF", 'W');
    WarFormAppend(DmsDir, MetadataTemplatesDir);
    DmsWarForm();
  }

  /** The same text, cut around the placeholder. */
  lemma HomeAroundPlaceholder()
    ensures "war:" + DmsDir + MetadataTemplatesDir == "war:/conf/" + (Placeholder + ("/dms/" + MetadataTemplatesDir))
  {
    assert "war:/conf/" == "war:" + "/conf/";
    assert DmsDir == "/conf/" + Placeholder + "/dms/";
  }

  /** The "storedLocation" parameter: the templates' home in war: form, name substituted. */
  lemma StoredLocation(ext: string)
    ensures Substitute(WarForm(MetadataSettings.storedLocation), ext) == "war:/conf/" + ext + "/dms/" + MetadataTemplatesDir
  {
    HomeWarForm();
    HomeAroundPlaceholder();
    var tail := "/dms/" + MetadataTemplatesDir;
    assert 'u' !in tail by {
      assert 'u' !in MetadataTemplatesDir;
    }
    ConfImportSubstituted(tail, ext);
  }

  /** The declared import, once substituted, is the war: form of the configuration entry the run writes. */
  lemma ConfigurationImported(ext: string)
    ensures Imports(Substitute(ConfigurationPaths[0], ext), WrittenName(DmsLocation + MetadataSettings.configurationName, ext))
  {
    DmsImportNames(MetadataConfigurationName, ext);
  }
}
