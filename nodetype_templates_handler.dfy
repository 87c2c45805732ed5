/**
 * The node-type templates handler (NodeTypeTemplatesConfigurationHandler):
 * the DMS templates handler over the document types' templates, declared on
 * the template service.
 */
module NodeTypeTemplatesHandler {
  import opened Strings
  import opened KernelXml
  import opened Archive
  import opened Paths
  import opened HandlerBase
  import opened DmsTemplatesHandler

  const NodeTypeTemplatesDir := "templates/" + "nodetypes"

  /** NODETYPE_TEMPLATES_CONFIGURATION_LOCATION */
  const NodeTypeTemplatesHome := DmsLocation + NodeTypeTemplatesDir

  /** NODETYPE_TEMPLATES_CONFIGURATION_NAME */
  const NodeTypeConfigurationName := "nodetype-templates-" + "configuration.xml"

  /** The one import this handler declares. */
  const ConfigurationPaths := [WarForm(DmsLocation) + NodeTypeConfigurationName]

  const NodeTypeSettings := Settings(EcmTemplatesDocumentTypePath, NodeTypeTemplatesHome, NodeTypeConfigurationName,
    "template.configuration", "addTemplates", TemplateService)

  /** The constructor. */
  method NewNodeTypeTemplatesHandler() returns (h: Handler)
    ensures fresh(h)
    ensures h.kind == Kind.NodeTypeTemplates && h.tempFiles == [] && h.configurationPaths == ConfigurationPaths
  {
    h := new Handler(Kind.NodeTypeTemplates, ConfigurationPaths);
  }

  /** The templates' home in war: form. */
  lemma HomeWarForm()
    ensures WarForm(NodeTypeTemplatesHome) == "war:" + DmsDir + NodeTypeTemplatesDir
  {
    assert 'W' !in "/conf/" && 'W' !in Placeholder && 'W' !in "/dms/";
    assert 'W' !in "templates/" && 'W' !in NodeTypeTemplatesDir;
    MissingCharNotContained(NodeTypeTemplatesDir, "WEB-INF", 'W');
    WarFormAppend(DmsDir, NodeTypeTemplatesDir);
    DmsWarForm();
  }

  /** The same text, cut around the placeholder. */
  lemma HomeAroundPlaceholder()
    ensures "war:" + DmsDir + NodeTypeTemplatesDir == "war:/conf/" + (Placeholder + ("/dms/" + NodeTypeTemplatesDir))
  {
    assert "war:/conf/" == "war:" + "/conf/";
    assert DmsDir == "/conf/" + Placeholder + "/dms/";
  }

  /** The "storedLocation" parameter: the templates' home in war: form, name substituted. */
  lemma StoredLocation(ext: string)
    ensures Substitute(WarForm(NodeTypeSettings.storedLocation), ext) == "war:/conf/" + ext + "/dms/" + NodeTypeTemplatesDir
  {
    HomeWarForm();
    HomeAroundPlaceholder();
    var tail := "/dms/" + NodeTypeTemplatesDir;
    assert 'u' !in tail by {
      assert 'u' !in NodeTypeTemplatesDir;
    }
    ConfImportSubstituted(tail, ext);
  }

  /** The declared import, once substituted, is the war: form of the configuration entry the run writes. */
  lemma ConfigurationImported(ext: string)
    ensures Imports(Substitute(ConfigurationPaths[0], ext), WrittenName(DmsLocation + NodeTypeSettings.configurationName, ext))
  {
    DmsImportNames(NodeTypeConfigurationName, ext);
  }
}
