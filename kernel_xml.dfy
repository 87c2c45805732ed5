/**
 * The eXo kernel configuration objects (org.exoplatform.container.xml and the
 * service configuration beans they carry) that the handlers build and that
 * the archive writers marshal. They are values here: every handler fills a
 * freshly created record and hands it on, so building the final value is
 * the same as filling it in place.
 */
module KernelXml {
  import opened Wrappers

  /** ResourceConfig.Resource */
  datatype Resource = Resource(name: string, description: string)

  /** TemplateConfig.Template */
  datatype Template = Template(templateFile: string, roles: string)

  /** TemplateConfig.NodeType */
  datatype NodeTypeTemplates = NodeTypeTemplates(
    nodetypeName: string,
    typeLabel: string,
    documentTemplate: bool,
    referencedDialog: seq<Template>,
    referencedView: seq<Template>,
    referencedSkin: seq<Template>)

  /** The objects carried by object parameters. */
  datatype PortalObject =
    | NewPortalConfig(ownerType: string, predefinedOwner: set<string>, templateLocation: string)
    | ResourceConfig(resources: seq<Resource>)
    | TemplateConfig(nodeTypes: seq<NodeTypeTemplates>)
    | PortletTemplateConfig(category: string, templateName: string, title: string)
    | DeploymentDescriptor(sourcePath: string, workspace: Option<string>, nodePath: string,
                           versionHistoryPath: Option<string>, cleanupPublication: bool)
      /** An object read back from exported XML, which the model does not look into. */
    | Unmarshalled(source: string)

  /** ValueParam, ValuesParam, PropertiesParam and ObjectParameter. */
  datatype Param =
    | ValueParam(name: string, value: string)
    | ValuesParam(name: string, values: seq<string>)
    | PropertiesParam(name: string, properties: map<string, string>)
    | ObjectParam(name: string, obj: PortalObject)

  /** InitParams is a map from parameter name to parameter: adding a parameter replaces one of the same name. */
  type InitParams = map<string, Param>

  function AddParam(params: InitParams, p: Param): (r: InitParams)
    ensures p.name in r && r[p.name] == p
    ensures forall n :: n != p.name ==> (n in r <==> n in params)
    ensures forall n :: n != p.name && n in params ==> r[n] == params[n]
  {
    params[p.name := p]
  }

  /** ComponentPlugin; the type field is `pluginType`, the priority defaults to 0. */
  datatype ComponentPlugin = ComponentPlugin(
    name: string,
    pluginType: ClassName,
    setMethod: string,
    priority: int,
    initParams: Option<InitParams>)

  /** ExternalComponentPlugins: a target component and its plugins, both absent until set. */
  datatype ExternalComponentPlugins = ExternalComponentPlugins(
    targetComponent: Option<ClassName>,
    componentPlugins: Option<seq<ComponentPlugin>>)

  const NoPlugins := ExternalComponentPlugins(None, None)

  /** Component (only its type is ever set by the generator). */
  datatype Component = Component(componentType: ClassName)

  /** Configuration: the document marshalled into each *-configuration.xml. */
  datatype Configuration = Configuration(
    components: seq<Component>,
    externalComponentPlugins: seq<ExternalComponentPlugins>,
    imports: seq<string>)

  const EmptyConfiguration := Configuration([], [], [])

  /** Configuration.getExternalComponentPlugins(key): the first group targeting `key`, or None. */
  function GroupFor(groups: seq<ExternalComponentPlugins>, key: ClassName): (r: Option<ExternalComponentPlugins>)
    ensures r.Some? <==> exists i :: 0 <= i < |groups| && groups[i].targetComponent == Some(key)
    ensures r.Some? ==> r.value in groups && r.value.targetComponent == Some(key)
    decreases |groups|
  {
    if groups == [] then None
    else if groups[0].targetComponent == Some(key) then Some(groups[0])
    else
      var r := GroupFor(groups[1..], key);
      assert forall i :: 1 <= i < |groups| ==> groups[i] == groups[1..][i - 1];
      r
  }

  /**
   * The kernel services and plugins the handlers name, as the component
   * keys and plugin types of the configuration; any other class read back
   * from an exported configuration keeps its name.
   */
  datatype ClassName =
    | RepositoryService
    | AddNodeTypePlugin
    | UserPortalConfigService
    | NewPortalConfigListener
    | ScriptService
    | ScriptPlugin
    | TemplateService
    | TemplatePlugin
    | MetadataService
    | ApplicationTemplateManagerService
    | PortletTemplatePlugin
    | ManageViewService
    | ManageViewPlugin
    | ApplicationRegistryService
    | ApplicationCategoriesPlugins
    | WCMContentInitializerService
    | XMLDeploymentPlugin
    | CreatePortalArtifactsService
    | IgnorePortalPlugin
    | GroovyScript2RestLoader
    | GroovyScript2RestLoaderPlugin
    | OtherClass(qualifiedName: string)

  /** The fully qualified Java name of a class. */
  function QualifiedName(c: ClassName): string {
    match c
    case RepositoryService => "org.exoplatform.services.jcr.RepositoryService"
    case AddNodeTypePlugin => "org.exoplatform.services.jcr.impl.AddNodeTypePlugin"
    case UserPortalConfigService => "org.exoplatform.portal.config.UserPortalConfigService"
    case NewPortalConfigListener => "org.exoplatform.portal.config.NewPortalConfigListener"
    case ScriptService => "org.exoplatform.services.cms.scripts.ScriptService"
    case ScriptPlugin => "org.exoplatform.services.cms.scripts.impl.ScriptPlugin"
    case TemplateService => "org.exoplatform.services.cms.templates.TemplateService"
    case TemplatePlugin => "org.exoplatform.services.cms.templates.impl.TemplatePlugin"
    case MetadataService => "org.exoplatform.services.cms.metadata.MetadataService"
    case ApplicationTemplateManagerService => "org.exoplatform.services.cms.views.ApplicationTemplateManagerService"
    case PortletTemplatePlugin => "org.exoplatform.services.cms.views.PortletTemplatePlugin"
    case ManageViewService => "org.exoplatform.services.cms.views.ManageViewService"
    case ManageViewPlugin => "org.exoplatform.services.cms.views.impl.ManageViewPlugin"
    case ApplicationRegistryService => "org.exoplatform.application.registry.ApplicationRegistryService"
    case ApplicationCategoriesPlugins => "org.exoplatform.application.registry.ApplicationCategoriesPlugins"
    case WCMContentInitializerService => "org.exoplatform.services.deployment.WCMContentInitializerService"
    case XMLDeploymentPlugin => "org.exoplatform.services.deployment.plugins.XMLDeploymentPlugin"
    case CreatePortalArtifactsService => "org.exoplatform.services.wcm.portal.artifacts.CreatePortalArtifactsService"
    case IgnorePortalPlugin => "org.exoplatform.services.wcm.portal.artifacts.IgnorePortalPlugin"
    case GroovyScript2RestLoader => "org.exoplatform.services.jcr.ext.script.groovy.GroovyScript2RestLoader"
    case GroovyScript2RestLoaderPlugin => "org.exoplatform.services.jcr.ext.script.groovy.GroovyScript2RestLoaderPlugin"
    case OtherClass(n) => n
  }
}
