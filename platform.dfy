/**
 * What the generator asks of the platform it runs in. The GateIn management
 * controller, the JCR repository and its node-type manager, the gadget
 * registry, the IDE's Groovy REST loader, the class-path templates and the
 * XML (un)marshallers are all foreign code: the model takes each of them as
 * a function value, fixed for one run of the generator.
 */
module Platform {
  import opened Wrappers
  import opened KernelXml
  import opened Archive
  import opened NodeTypeOrder

  /**
   * An export request to the management controller: the managed path, and
   * the "filter" attribute, which is present only when filters were given.
   */
  datatype ExportRequest = ExportRequest(path: string, filter: Option<seq<string>>)

  /**
   * The outcome of an export: the controller failed (no temporary file is
   * created), the result could not be written to or read back from its
   * temporary file (the file exists), or the exported archive.
   */
  datatype ExportResponse =
    | ControllerFailure
    | TransferFailure
    | Exported(entries: seq<Entry>)

  /** A template reference inside exported node-type template metadata (NodeTemplate). */
  datatype NodeTemplate = NodeTemplate(templateFile: Option<string>, roles: string)

  /** Exported node-type template metadata (NodeMetadata). */
  datatype NodeMetadata = NodeMetadata(
    nodetypeName: string,
    typeLabel: string,
    documentTemplate: bool,
    templates: map<string, seq<NodeTemplate>>)

  /** Exported site-content metadata (SiteMetaData): its option map. */
  datatype SiteMetadata = SiteMetadata(options: map<string, string>)

  /** A JCR item as seen from a gadget's file: the gadget file tree. */
  datatype JcrNode =
    | FileNode(path: string, content: Content)
    | FolderNode(path: string, children: seq<JcrNode>)
    | OtherNode(path: string)

  /**
   * Where a gadget's XML file sits: the session lookup throws, the item is
   * missing, it is not a file, or it is a file with its parent and the
   * path of its grand-parent.
   */
  datatype GadgetFile =
    | LookupFailed
    | NoItem
    | NotAFile
    | GadgetXml(filePath: string, parent: JcrNode, grandParentPath: string)

  /** A registered gadget (GadgetRegistryService). */
  datatype Gadget = Gadget(name: string, title: string, description: string, url: string, isLocal: bool)

  /** The result of a management read-resource call: child names with descriptions, None for a null children set. */
  datatype ReadResource = ReadResource(description: string, children: Option<seq<(string, string)>>)

  /** A deployed gadget registry: what getAllGadgets gives, None when it throws. */
  datatype GadgetRegistry = GadgetRegistry(allGadgets: Option<seq<Gadget>>)

  /** A handler whose source is not part of this model: what it writes, returns and imports. */
  datatype OpaqueRun = OpaqueRun(writes: seq<Entry>, extracted: Option<bool>, configurationPaths: seq<string>)

  datatype Services = Services(
    /** ManagementController.execute on an export request. */
    exportResource: ExportRequest -> ExportResponse,
    /** ManagementController.execute on a read-resource request; None is a failed outcome. */
    readResource: string -> Option<ReadResource>,
    /** Utils.fromXML(…, Configuration.class); None when unmarshalling throws. */
    parseConfiguration: Content -> Option<Configuration>,
    /** Utils.fromXML(…, ObjectParameter.class): the object parsed; None when unmarshalling throws. */
    parseObjectParameter: Content -> Option<PortalObject>,
    /** JiBX unmarshalling of an exported node-type file: the node-type names it declares. */
    declaredNodeTypes: Content -> Option<seq<string>>,
    /** The node-type manager: each registered type and its declared supertypes. */
    nodeTypes: Graph,
    /** NodeTypeExportTask.getNodeTypeXML */
    nodeTypeXml: seq<string> -> string,
    /** XStream unmarshalling of node-type template metadata; None when it throws. */
    parseNodeMetadata: Content -> Option<NodeMetadata>,
    /** XStream unmarshalling of application-template metadata: template path to title; None when it throws. */
    parseTemplateTitles: Content -> Option<map<string, string>>,
    /** XStream unmarshalling of a view configuration's init params; None when it throws. */
    parseInitParams: Content -> Option<InitParams>,
    /** XStream unmarshalling of site-content metadata; None when it throws. */
    parseSiteMetadata: Content -> Option<SiteMetadata>,
    /** The current repository's name. */
    repositoryName: string,
    /** The repository's workspace names. */
    workspaces: seq<string>,
    /**
     * GroovyScript2RestLoader.list: the script paths of each workspace, None
     * for a workspace whose listing throws; the whole is None when no loader
     * is deployed.
     */
    restScripts: Option<string -> Option<seq<string>>>,
    /** GroovyScript2RestLoader.getScript; None when it throws. */
    scriptContent: (string, string) -> Option<Content>,
    /** Plugins configured on the REST loader components (predefined scripts). */
    loaderPlugins: seq<ComponentPlugin>,
    /** The GadgetRegistryService; None when no registry is deployed. */
    gadgets: Option<GadgetRegistry>,
    /** GadgetRegistryService.getGadget */
    gadgetNamed: string -> Option<Gadget>,
    /** The JCR item at a path of a workspace, for a gadget file (only asked for a workspace the repository has). */
    gadgetFile: (string, string) -> GadgetFile,
    /** The class-path templates: web.xml, the activation configuration.xml, and maven.zip. */
    webXmlTemplate: Content,
    configurationTemplate: Content,
    mavenTemplate: seq<Entry>,
    /** SiteConstants.SITE_CONTENTS_ROOT_PATH, JCRNodeExportTask.JCR_DATA_SEPARATOR and the version-history file suffix. */
    siteContentsRootPath: string,
    jcrDataSeparator: string,
    versionHistorySuffix: string,
    /** The handlers whose source is not part of this model, by position in the handler list. */
    opaqueHandler: (nat, string, seq<string>) -> OpaqueRun)
}
