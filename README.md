# eXo extension generator, modelled in Dafny

The eXo Platform extension generator turns a set of resources an
administrator selects in a portlet (portal, group and user sites, site
contents, ECM templates, drives, scripts, node types, views, the application
registry, Groovy REST services saved from the IDE, gadgets) into a
deployable extension. It produces either a ready-to-deploy archive, holding
the extension WAR and an activation JAR, or a Maven project. Each registered
configuration handler exports its part of the selection through the
platform's management layer. It writes the exported files into the WAR, with
the placeholder `custom-extension` replaced by the extension name, and writes
a kernel configuration file declaring them. The generator's
`WEB-INF/conf/configuration.xml` imports the configuration paths of every
handler that reported success.

The model follows the Java sources file by file:

- `archive.dfy`: the output archive, a class whose entries a write extends. A duplicate name is refused.
- `utils.dfy`: the entry writers, copyZipEnries and convertTemplateList.
- `handler_base.dfy`: the shared handler logic.
  - The export call and its temporary-file registry.
  - The selection filter and the plugin-record builders.
  - The shape of one writeData run.
- `kernel_xml.dfy`: the kernel configuration records, as values.
- One module per handler. Each WriteData method is proved against a run function, and its lemmas state what that run writes, declares and returns.
- `nodetype_order.dfy`: the node-type dependency sort.
- `war_assembly.dfy` and `generator.dfy`: how the handler loop assembles the WAR, the package and the Maven project.
- `listing.dfy`: the resource listings.
- `node.dfy`: the Node class.
- `controller.dfy`: the portlet's selection state.
- `extension_name.dfy`: the extension-name check of the export form.

The platform (the management controller, the JCR, the gadget registry, the
Groovy REST loader and the XML marshallers) enters as function values in
`Platform.Services`.

## Model

| member | source | states |
|---|---|---|
| Archive.Put | service/src/main/java/org/exoplatform/extension/generator/service/api/Utils.java:265-276 | putting an entry whose name is already written leaves the archive as it was (the "duplicate entry" refusal); otherwise the entry is appended |
| Archive.PutAllFacts | service/src/main/java/org/exoplatform/extension/generator/service/api/Utils.java:265-276 | a sequence of puts only appends, keeps entry names unique, and leaves every attempted name in the archive |
| Archive.ZipOutput.constructor | service/src/main/java/org/exoplatform/extension/generator/service/ExtensionGeneratorImpl.java:382 | a new output stream holds no entries |
| Archive.ZipOutput.PutNextEntry | service/src/main/java/org/exoplatform/extension/generator/service/api/Utils.java:270-273 | the write succeeds exactly when the name is new, and the entries become Put of the old entries |
| KernelXml.AddParam | service/src/main/java/org/exoplatform/extension/generator/service/api/AbstractConfigurationHandler.java:208 | InitParams.addParameter: the new parameter is stored under its name; every other name keeps its presence and its parameter |
| KernelXml.GroupFor | service/src/main/java/org/exoplatform/extension/generator/service/handler/NodeTypeConfigurationHandler.java:123 | Configuration.getExternalComponentPlugins(key): a group is found exactly when one targets the key, and the one found is in the document and targets it |
| HandlerBase.Handler.constructor | service/src/main/java/org/exoplatform/extension/generator/service/api/AbstractConfigurationHandler.java:67-68 | a new handler has no temporary files; its kind and configuration paths are the given ones |
| HandlerBase.Request | service/src/main/java/org/exoplatform/extension/generator/service/api/AbstractConfigurationHandler.java:86-93 | the export request names the path; the "filter" attribute is present exactly when filters were given, and then holds them |
| HandlerBase.TempFilesAfter | service/src/main/java/org/exoplatform/extension/generator/service/api/AbstractConfigurationHandler.java:94-119 | the temporary file is registered whenever the management controller answered, even when writing or opening it then fails; otherwise the registry is unchanged |
| HandlerBase.Export | service/src/main/java/org/exoplatform/extension/generator/service/api/AbstractConfigurationHandler.java:85-120 | getExportedFileFromOperation: the exported archive, or None when the call throws; the temporary files become TempFilesAfter; the configuration paths do not change |
| HandlerBase.ClearTempFiles | service/src/main/java/org/exoplatform/extension/generator/service/api/AbstractConfigurationHandler.java:125-137 | the temporary-file registry is empty afterwards whatever the deletions do; the configuration paths do not change |
| HandlerBase.FindEntry | service/src/main/java/org/exoplatform/extension/generator/service/api/AbstractConfigurationHandler.java:234 | ZipFile.getEntry: an entry is found exactly when the name is in the archive, and the entry found has that name |
| HandlerBase.ApplicationTemplatesMetadata | service/src/main/java/org/exoplatform/extension/generator/service/api/AbstractConfigurationHandler.java:233-246 | no metadata exactly when the export has no "ecmadmin/templates/applications/metadata.xml" entry; otherwise the titles it unmarshals into, or an unreadable result when unmarshalling throws (only an IOException is caught, so that exception escapes) |
| HandlerBase.FilteredExactly | service/src/main/java/org/exoplatform/extension/generator/service/api/AbstractConfigurationHandler.java:149-157 | the filter keeps a path exactly when it is selected and contains the parent path (a substring test), and never keeps more than was selected |
| HandlerBase.FilterIdempotent | service/src/main/java/org/exoplatform/extension/generator/service/api/AbstractConfigurationHandler.java:149-157 | filtering twice by the same parent path is filtering once |
| HandlerBase.FilterSelectedResources | service/src/main/java/org/exoplatform/extension/generator/service/api/AbstractConfigurationHandler.java:149-157 | the loop computes the filtered selection |
| HandlerBase.StripAll | service/src/main/java/org/exoplatform/extension/generator/service/handler/MetadataTemplatesConfigurationHandler.java:79-82 | one export filter per selected path, in order, each the path with every occurrence of the prefix removed |
| HandlerBase.ExportFilters | service/src/main/java/org/exoplatform/extension/generator/service/handler/MetadataTemplatesConfigurationHandler.java:78-82 | the loop computes StripAll |
| HandlerBase.AddComponentPlugin | service/src/main/java/org/exoplatform/extension/generator/service/api/AbstractConfigurationHandler.java:166-172 | the group targets the component key, its plugin list exists, and the plugin follows the earlier plugins |
| HandlerBase.AddParams | service/src/main/java/org/exoplatform/extension/generator/service/api/AbstractConfigurationHandler.java:206-210 | after adding parameters in turn the names are the old ones plus the parameters'; a name no parameter uses keeps its value; the last parameter is stored under its name |
| HandlerBase.SingleParam | service/src/main/java/org/exoplatform/extension/generator/service/api/AbstractConfigurationHandler.java:200-210 | one parameter added to empty init params gives the one-entry map |
| HandlerBase.AddParamsLastWins | service/src/main/java/org/exoplatform/extension/generator/service/api/AbstractConfigurationHandler.java:206-210 | a parameter that no later parameter of the same name follows is the one the init params keep |
| HandlerBase.AddParamsSnoc | service/src/main/java/org/exoplatform/extension/generator/service/api/AbstractConfigurationHandler.java:207-209 | adding parameters one call at a time is adding them all at once |
| HandlerBase.AddParameter | service/src/main/java/org/exoplatform/extension/generator/service/api/AbstractConfigurationHandler.java:200-211 | addParameter creates the init params when absent and changes nothing else in the plugin; with no parameters an existing plugin is unchanged |
| HandlerBase.AddParameterTwice | service/src/main/java/org/exoplatform/extension/generator/service/api/AbstractConfigurationHandler.java:200-211 | adding parameters to a plugin in two calls is adding them in one |
| HandlerBase.CreateComponentPlugin | service/src/main/java/org/exoplatform/extension/generator/service/api/AbstractConfigurationHandler.java:184-192 | the plugin has the given name, type and set-method, priority 0, and init params: the given ones when no extra parameter is passed, empty ones when none are given |
| HandlerBase.SinglePluginGroup | service/src/main/java/org/exoplatform/extension/generator/service/api/AbstractConfigurationHandler.java:166-172 | a new group given one plugin targets the component and holds exactly that plugin |
| HandlerBase.ApplyFacts | service/src/main/java/org/exoplatform/extension/generator/service/api/ConfigurationHandler.java:30-39 | a run of writeData never removes entries and keeps names unique; a configuration write that succeeds adds the configuration entry last |
| Utils.SubstituteContent | service/src/main/java/org/exoplatform/extension/generator/service/api/Utils.java:190-196 | substituting the extension name rewrites text, records one more substitution in a marshalled document, and leaves a nested archive alone |
| Utils.StreamWriterDropsEcmadmin | service/src/main/java/org/exoplatform/extension/generator/service/api/Utils.java:166-167 | the stream writer drops a leading "/ecmadmin" from the entry name |
| Utils.StringWriterKeepsEcmadmin | service/src/main/java/org/exoplatform/extension/generator/service/api/Utils.java:190-196 | the string writer keeps a leading "/ecmadmin": only its leading '/' is dropped |
| Utils.WriteBytes | service/src/main/java/org/exoplatform/extension/generator/service/api/Utils.java:265-276 | one leading '/' is dropped and the entry is put; a refused entry is lost without telling the caller |
| Utils.WriteString | service/src/main/java/org/exoplatform/extension/generator/service/api/Utils.java:190-196 | the entry name is substituted, the content only when changeContent holds |
| Utils.WriteStream | service/src/main/java/org/exoplatform/extension/generator/service/api/Utils.java:166-178 | every "/ecmadmin" leaves the name; with changeContent the content is substituted, otherwise the bytes are copied as they are |
| Utils.WriteConfiguration | service/src/main/java/org/exoplatform/extension/generator/service/api/Utils.java:65-79 | false exactly when the substituted name was already written; the document is added under that name |
| Utils.WritePlugins | service/src/main/java/org/exoplatform/extension/generator/service/api/Utils.java:90-108 | a fresh configuration holds the plugin groups in argument order, written as by writeConfiguration |
| Utils.SqueezeNoDouble | service/src/main/java/org/exoplatform/extension/generator/service/api/Utils.java:129-131 | collapsing runs of '/' leaves no "//" |
| Utils.SqueezeFixed | service/src/main/java/org/exoplatform/extension/generator/service/api/Utils.java:129-131 | a name without "//" is its own collapse |
| Utils.ReplacePreservesSqueeze | service/src/main/java/org/exoplatform/extension/generator/service/api/Utils.java:129-131 | one pass of replace("//", "/") does not change the collapsed name (the loop's invariant) |
| Utils.CollapseDoubleSlashes | service/src/main/java/org/exoplatform/extension/generator/service/api/Utils.java:129-131 | the loop ends, with every run of '/' collapsed to one and no "//" left |
| Utils.CopyTarget | service/src/main/java/org/exoplatform/extension/generator/service/api/Utils.java:128-134 | a copied entry's target name has no "//" and does not start with '/' |
| Utils.CopySources | service/src/main/java/org/exoplatform/extension/generator/service/api/Utils.java:124-127 | the entries copied are exactly the ones that are not directories and whose name holds a '.' |
| Utils.CopiesOfSources | service/src/main/java/org/exoplatform/extension/generator/service/api/Utils.java:119-136 | the copies are the copyable entries, in order, renamed under the root and substituted |
| Utils.CopyZipEntries | service/src/main/java/org/exoplatform/extension/generator/service/api/Utils.java:119-139 | copyZipEnries puts each copy in order; a missing root is the empty root |
| Utils.ConvertedTemplatesFacts | service/src/main/java/org/exoplatform/extension/generator/service/api/Utils.java:242-256 | no converted template file holds ':'; with no missing file the result matches the input one to one, roles unchanged |
| Utils.ConvertTemplateList | service/src/main/java/org/exoplatform/extension/generator/service/api/Utils.java:242-256 | a missing list gives an empty list; otherwise the templates with a file, ':' replaced by '_', in order |
| Paths.ImportNamesEntry | service/src/main/java/org/exoplatform/extension/generator/service/handler/ScriptsConfigurationHandler.java:56 | a configuration path declared as the war: form of "WEB-INF" + dir, followed by a name, imports exactly the entry the writer produces for that file |
| Paths.ImportNamesFile | service/src/main/java/org/exoplatform/extension/generator/service/handler/ApplicationRegistryConfigurationHandler.java:54 | the same for a file whose whole path is declared in war: form |
| Paths.DmsImportNames | service/src/main/java/org/exoplatform/extension/generator/service/api/AbstractConfigurationHandler.java:61 | a file in the DMS directory is imported by the DMS location in war: form followed by its name |
| Paths.DmsImportForm | service/src/main/java/org/exoplatform/extension/generator/service/handler/ScriptsConfigurationHandler.java:82 | the DMS location in war: form, with the extension name substituted, is "war:/conf/<name>/dms/" |
| DrivesHandler.NewDrivesHandler | service/src/main/java/org/exoplatform/extension/generator/service/handler/DrivesConfigurationHandler.java:45 | a new drives handler reports no configuration path |
| DrivesHandler.DrivesFileNamed | service/src/main/java/org/exoplatform/extension/generator/service/handler/DrivesConfigurationHandler.java:42-68 | the exported drives entry loses "ecmadmin/" to become "drive/drives-configuration.xml" |
| DrivesHandler.DrivesCopyNamed | service/src/main/java/org/exoplatform/extension/generator/service/handler/DrivesConfigurationHandler.java:70 | the copy of the drives file keeps its name: it holds no "/ecmadmin" |
| DrivesHandler.ReportedPathImportsCopy | service/src/main/java/org/exoplatform/extension/generator/service/handler/DrivesConfigurationHandler.java:66-75 | a run returns true exactly when it reports one configuration path, false exactly when it reports none, and the reported path imports the entry it wrote |
| DrivesHandler.WriteData | service/src/main/java/org/exoplatform/extension/generator/service/handler/DrivesConfigurationHandler.java:53-86 | nothing selected: false, nothing changes; otherwise the paths are cleared, the drives entry is copied unchanged under the DMS location and reported, and a failed export or missing entry is answered false; temporary files are cleared |
| DmsTemplatesHandler.FailureSticks | service/src/main/java/org/exoplatform/extension/generator/service/handler/MetadataTemplatesConfigurationHandler.java:102-105 | once a metadata entry has failed to unmarshal, the entries after it change nothing |
| DmsTemplatesHandler.ScanExactly | service/src/main/java/org/exoplatform/extension/generator/service/handler/MetadataTemplatesConfigurationHandler.java:87-106 | the entry loop fails exactly when some "metadata.xml" entry does not unmarshal; otherwise each entry is copied or read, never both: exactly the other entries are copied, and one metadata is read per metadata entry |
| DmsTemplatesHandler.CopyLocationHasNoColon | service/src/main/java/org/exoplatform/extension/generator/service/handler/MetadataTemplatesConfigurationHandler.java:99 | no copied template's location holds ':' |
| DmsTemplatesHandler.NodeTypeRecords | service/src/main/java/org/exoplatform/extension/generator/service/handler/MetadataTemplatesConfigurationHandler.java:135-144 | one node-type record per metadata, in order |
| DmsTemplatesHandler.RecordFacts | service/src/main/java/org/exoplatform/extension/generator/service/handler/MetadataTemplatesConfigurationHandler.java:136-142 | a record keeps its metadata's name, label and document flag, and references only template files without ':'; when every template has a file, all of them are kept |
| DmsTemplatesHandler.RunOutcomes | service/src/main/java/org/exoplatform/extension/generator/service/handler/MetadataTemplatesConfigurationHandler.java:73-146 | an empty selection returns false; a failed export escapes as an exception; the run reaches its configuration exactly when every metadata entry unmarshals, and otherwise returns false |
| DmsTemplatesHandler.PluginShape | service/src/main/java/org/exoplatform/extension/generator/service/handler/MetadataTemplatesConfigurationHandler.java:118-133 | the configuration declares one "addPlugins" TemplatePlugin on the target service, with exactly three parameters: automatic creation, the stored location, and the records of the metadata read, in order |
| DmsTemplatesHandler.ReadEntries | service/src/main/java/org/exoplatform/extension/generator/service/handler/MetadataTemplatesConfigurationHandler.java:87-106 | the entry loop: the copies are written, the metadata collected, and a metadata entry that does not unmarshal stops it |
| DmsTemplatesHandler.ConvertKind | service/src/main/java/org/exoplatform/extension/generator/service/handler/MetadataTemplatesConfigurationHandler.java:140-142 | the templates of one kind, converted; a missing kind gives none |
| DmsTemplatesHandler.BuildRecords | service/src/main/java/org/exoplatform/extension/generator/service/handler/MetadataTemplatesConfigurationHandler.java:135-144 | the record loop builds NodeTypeRecords |
| DmsTemplatesHandler.WriteData | service/src/main/java/org/exoplatform/extension/generator/service/handler/MetadataTemplatesConfigurationHandler.java:73-146 | the archive and the result are those of the modelled run; the temporary files are cleared once an export was attempted; the configuration paths do not change |
| MetadataTemplatesHandler.NewMetadataTemplatesHandler | service/src/main/java/org/exoplatform/extension/generator/service/handler/MetadataTemplatesConfigurationHandler.java:62-65 | the handler reports the DMS location in war: form followed by "metadata-templates-configuration.xml" |
| MetadataTemplatesHandler.HomeWarForm | service/src/main/java/org/exoplatform/extension/generator/service/handler/MetadataTemplatesConfigurationHandler.java:56 | the metadata templates' home in war: form |
| MetadataTemplatesHandler.StoredLocation | service/src/main/java/org/exoplatform/extension/generator/service/handler/MetadataTemplatesConfigurationHandler.java:123 | the "storedLocation" value is "war:/conf/<name>/dms/templates/metadata" |
| MetadataTemplatesHandler.ConfigurationImported | service/src/main/java/org/exoplatform/extension/generator/service/handler/MetadataTemplatesConfigurationHandler.java:64 | the reported path, once substituted, imports the configuration entry the run writes |
| NodeTypeTemplatesHandler.NewNodeTypeTemplatesHandler | service/src/main/java/org/exoplatform/extension/generator/service/handler/NodeTypeTemplatesConfigurationHandler.java:62-67 | the handler reports the DMS location in war: form followed by "nodetype-templates-configuration.xml" |
| NodeTypeTemplatesHandler.HomeWarForm | service/src/main/java/org/exoplatform/extension/generator/service/handler/NodeTypeTemplatesConfigurationHandler.java:56 | the document types' templates home in war: form |
| NodeTypeTemplatesHandler.StoredLocation | service/src/main/java/org/exoplatform/extension/generator/service/handler/NodeTypeTemplatesConfigurationHandler.java:123 | the "storedLocation" value is "war:/conf/<name>/dms/templates/nodetypes" |
| NodeTypeTemplatesHandler.ConfigurationImported | service/src/main/java/org/exoplatform/extension/generator/service/handler/NodeTypeTemplatesConfigurationHandler.java:67 | the reported path, once substituted, imports the configuration entry the run writes |
| ClvTemplatesHandler.NewClvTemplatesHandler | service/src/main/java/org/exoplatform/extension/generator/service/handler/CLVTemplatesConfigurationHandler.java:40-50 | the handler reports the DMS location in war: form followed by "application-clv-templates-configuration.xml" |
| ClvTemplatesHandler.ClvHomeWarForm | service/src/main/java/org/exoplatform/extension/generator/service/handler/CLVTemplatesConfigurationHandler.java:34 | the content list viewer templates' home in war: form |
| ClvTemplatesHandler.ClvTemplatePath | service/src/main/java/org/exoplatform/extension/generator/service/handler/ApplicationTemplatesConfigurationHandler.java:120 | the "portlet.template.path" value is "war:/conf/<name>/dms/templates/applications/content-list-viewer" |
| ClvTemplatesHandler.ConfigurationImported | service/src/main/java/org/exoplatform/extension/generator/service/handler/CLVTemplatesConfigurationHandler.java:42 | the reported path, once substituted, imports the configuration entry the run writes |
| ClvTemplatesHandler.OneSlashMissesStaging | service/src/main/java/org/exoplatform/extension/generator/service/handler/ApplicationTemplatesConfigurationHandler.java:125 | a "<category>/<name>" text never holds the staging path followed by '/' |
| ClvTemplatesHandler.ClvTemplateParsed | service/src/main/java/org/exoplatform/extension/generator/service/handler/ApplicationTemplatesConfigurationHandler.java:124-141 | a selected "<staging path>/<category>/<name>" template is declared under that category and template name |
| AppTemplatesHandler.TemplateFileBySuffix | service/src/main/java/org/exoplatform/extension/generator/service/handler/ApplicationTemplatesConfigurationHandler.java:94 | the directory and empty-name tests add nothing to the ".gtmpl" suffix test |
| AppTemplatesHandler.TemplateCopiesExactly | service/src/main/java/org/exoplatform/extension/generator/service/handler/ApplicationTemplatesConfigurationHandler.java:91-104 | an export's copies are exactly its ".gtmpl" entries under the DMS location, bytes unchanged |
| AppTemplatesHandler.FailureSticks | service/src/main/java/org/exoplatform/extension/generator/service/handler/ApplicationTemplatesConfigurationHandler.java:82-115 | once an export has failed, the later selected paths change nothing |
| AppTemplatesHandler.TitlesMerged | service/src/main/java/org/exoplatform/extension/generator/service/handler/ApplicationTemplatesConfigurationHandler.java:82-90 | the export loop fails exactly when some export fails or holds metadata that does not unmarshal; otherwise a title is known exactly when some export's metadata names it |
| AppTemplatesHandler.LaterExportWins | service/src/main/java/org/exoplatform/extension/generator/service/handler/ApplicationTemplatesConfigurationHandler.java:89 | the title kept for a key is the one of the last export whose metadata names it |
| AppTemplatesHandler.TemplateParam | service/src/main/java/org/exoplatform/extension/generator/service/handler/ApplicationTemplatesConfigurationHandler.java:122-142 | None exactly when the path, without its staging prefix, splits into fewer than two segments (the array access throws); otherwise a portlet template parameter named after the template without ".gtmpl", titled by the merged title of the path without "/ecmadmin/", or by the template name |
| AppTemplatesHandler.TemplateParamsExactly | service/src/main/java/org/exoplatform/extension/generator/service/handler/ApplicationTemplatesConfigurationHandler.java:122-143 | one parameter per selected path, in order, exactly when every path splits |
| AppTemplatesHandler.ParamFailureSticks | service/src/main/java/org/exoplatform/extension/generator/service/handler/ApplicationTemplatesConfigurationHandler.java:126-129 | a path that cannot be split settles the run: it throws |
| AppTemplatesHandler.TemplatePathParsed | service/src/main/java/org/exoplatform/extension/generator/service/handler/ApplicationTemplatesConfigurationHandler.java:125-129 | "<staging path>/<category>/<name>" splits back into that category and that template name |
| AppTemplatesHandler.ParamNameDropsSuffix | service/src/main/java/org/exoplatform/extension/generator/service/handler/ApplicationTemplatesConfigurationHandler.java:140 | a template "<base>.gtmpl" gives a parameter named "<base>" |
| AppTemplatesHandler.RunOutcomes | service/src/main/java/org/exoplatform/extension/generator/service/handler/ApplicationTemplatesConfigurationHandler.java:76-149 | an empty selection returns false and writes nothing; the run reaches its configuration exactly when every export succeeds with readable metadata and every selected path splits; otherwise it throws after the copies of the exports before the failure |
| AppTemplatesHandler.TemplatesPluginParams | service/src/main/java/org/exoplatform/extension/generator/service/handler/ApplicationTemplatesConfigurationHandler.java:118-143 | the parameters are "portletName", "portlet.template.path" and one per template; the last template of each name is the one kept; the fixed two keep their values unless a template takes their name |
| AppTemplatesHandler.PluginShape | service/src/main/java/org/exoplatform/extension/generator/service/handler/ApplicationTemplatesConfigurationHandler.java:145-148 | the configuration declares one "templates.plugin" PortletTemplatePlugin on the application template manager, with one template per selected path |
| AppTemplatesHandler.CopyTemplates | service/src/main/java/org/exoplatform/extension/generator/service/handler/ApplicationTemplatesConfigurationHandler.java:91-104 | the copy loop writes TemplateCopies |
| AppTemplatesHandler.AddTemplateParams | service/src/main/java/org/exoplatform/extension/generator/service/handler/ApplicationTemplatesConfigurationHandler.java:118-143 | the parameter loop gives the fixed parameters plus the template parameters, or None when a path does not split |
| AppTemplatesHandler.ExportTemplates | service/src/main/java/org/exoplatform/extension/generator/service/handler/ApplicationTemplatesConfigurationHandler.java:82-115 | the export loop merges the titles, copies the template files and clears the temporary files after each export; a failed export stops it |
| AppTemplatesHandler.WriteData | service/src/main/java/org/exoplatform/extension/generator/service/handler/ApplicationTemplatesConfigurationHandler.java:76-149 | the archive and the result are those of the modelled run; the configuration paths do not change |
| ScriptsHandler.ScriptsLocation | service/src/main/java/org/exoplatform/extension/generator/service/handler/ScriptsConfigurationHandler.java:82-84 | the predefined-scripts location is "war:/conf/<name>/dms": the DMS location in import form without its final '/' |
| ScriptsHandler.ScriptResources | service/src/main/java/org/exoplatform/extension/generator/service/handler/ScriptsConfigurationHandler.java:102-107 | one resource per exported entry, in order |
| ScriptsHandler.ScriptCopies | service/src/main/java/org/exoplatform/extension/generator/service/handler/ScriptsConfigurationHandler.java:102-110 | one copy per exported entry, in order |
| ScriptsHandler.DeclaredScriptsAreCopied | service/src/main/java/org/exoplatform/extension/generator/service/handler/ScriptsConfigurationHandler.java:100-114 | the declared scripts and the copied files correspond one to one and in order: each resource is named and described by the relative location, and its copy holds the entry's bytes at that location below "scripts/" |
| ScriptsHandler.ExportedScriptRelative | service/src/main/java/org/exoplatform/extension/generator/service/handler/ScriptsConfigurationHandler.java:102 | an entry "ecmadmin/script<rest>" is declared as "<rest>" |
| ScriptsHandler.ScriptsPluginShape | service/src/main/java/org/exoplatform/extension/generator/service/handler/ScriptsConfigurationHandler.java:77-95 | the configuration declares one "manage.script.plugin" ScriptPlugin on the script service with exactly the parameters "autoCreateInNewRepository" = "true", "predefinedScriptsLocation" = "war:/conf/<name>/dms" and the "predefined.scripts" resources |
| ScriptsHandler.RunOutcomes | service/src/main/java/org/exoplatform/extension/generator/service/handler/ScriptsConfigurationHandler.java:65-126 | an empty selection returns false and writes nothing; the run reaches its configuration exactly when the export succeeds; a failed export escapes as an exception |
| ScriptsHandler.ConfigurationImported | service/src/main/java/org/exoplatform/extension/generator/service/handler/ScriptsConfigurationHandler.java:56-125 | the reported path, once substituted, imports the configuration entry written |
| ScriptsHandler.CopyScripts | service/src/main/java/org/exoplatform/extension/generator/service/handler/ScriptsConfigurationHandler.java:99-114 | the entry loop declares every exported entry as a resource and copies it |
| ScriptsHandler.WriteData | service/src/main/java/org/exoplatform/extension/generator/service/handler/ScriptsConfigurationHandler.java:65-126 | the archive and the result are those of the modelled run; the temporary files are cleared once an export was attempted; the configuration paths do not change |
| RegistryHandler.EntryParamsExactly | service/src/main/java/org/exoplatform/extension/generator/service/handler/ApplicationRegistryConfigurationHandler.java:85-95 | an entry that does not unmarshal is skipped alone: the parameters are exactly those of the entries that parse, each named after its entry without ".xml" |
| RegistryHandler.FailureSticks | service/src/main/java/org/exoplatform/extension/generator/service/handler/ApplicationRegistryConfigurationHandler.java:80-106 | a failed export anywhere makes the whole run escape with the exception |
| RegistryHandler.OnePlugin | service/src/main/java/org/exoplatform/extension/generator/service/handler/ApplicationRegistryConfigurationHandler.java:76-107 | a run that gets through its exports writes nothing but one configuration, with one group on the registry service holding one "new.registry.category" plugin |
| RegistryHandler.ConfigurationImported | service/src/main/java/org/exoplatform/extension/generator/service/handler/ApplicationRegistryConfigurationHandler.java:49-107 | the reported path, once substituted, imports the configuration entry written |
| RegistryHandler.ApplyConfigurationOnly | service/src/main/java/org/exoplatform/extension/generator/service/handler/ApplicationRegistryConfigurationHandler.java:107 | a run that only writes its configuration adds that entry, and returns false exactly when the name was already written |
| RegistryHandler.RegistryPluginSnoc | service/src/main/java/org/exoplatform/extension/generator/service/handler/ApplicationRegistryConfigurationHandler.java:91 | adding one parameter to the plugin is building it with that parameter last |
| RegistryHandler.AddEntries | service/src/main/java/org/exoplatform/extension/generator/service/handler/ApplicationRegistryConfigurationHandler.java:84-95 | the entry loop appends the parameters of the entries that parse, and the plugin holds them |
| RegistryHandler.CollectParams | service/src/main/java/org/exoplatform/extension/generator/service/handler/ApplicationRegistryConfigurationHandler.java:80-106 | the export loop gives the parameters of every selected path in order, or None once an export fails; the temporary files are cleared |
| RegistryHandler.WriteData | service/src/main/java/org/exoplatform/extension/generator/service/handler/ApplicationRegistryConfigurationHandler.java:71-108 | the archive and the result are those of the modelled run; the configuration paths do not change |
| ViewHandler.NewViewHandler | service/src/main/java/org/exoplatform/extension/generator/service/handler/SiteExplorerViewConfigurationHandler.java:58-61 | a new handler has no temporary files and declares the view configuration's full path in war: form |
| ViewHandler.ViewFileByName | service/src/main/java/org/exoplatform/extension/generator/service/handler/SiteExplorerViewConfigurationHandler.java:90-98 | the entry loop takes an entry exactly when it lies under "ecmadmin/view/", is not a directory and ends with ".xml" (the blank-name test never decides) |
| ViewHandler.FirstViewFile | service/src/main/java/org/exoplatform/extension/generator/service/handler/SiteExplorerViewConfigurationHandler.java:86-106 | the entry read is a view file with no view file before it, and there is none exactly when no entry is a view file |
| ViewHandler.RunOutcomes | service/src/main/java/org/exoplatform/extension/generator/service/handler/SiteExplorerViewConfigurationHandler.java:69-119 | a selection without views returns false; otherwise the run writes only its configuration, reached exactly when the export succeeds and holds a view file that unmarshals; every other run escapes (the null parameters included) |
| ViewHandler.ViewParamsKeepParsed | service/src/main/java/org/exoplatform/extension/generator/service/handler/SiteExplorerViewConfigurationHandler.java:108-111 | the declared parameters are the parsed ones plus automatic creation and the predefined views' location, which replace parsed parameters of the same name |
| ViewHandler.PredefinedViewsLocation | service/src/main/java/org/exoplatform/extension/generator/service/handler/SiteExplorerViewConfigurationHandler.java:111 | the "predefinedViewsLocation" value is "war:/conf/<name>/dms/view" |
| ViewHandler.ConfigurationImported | service/src/main/java/org/exoplatform/extension/generator/service/handler/SiteExplorerViewConfigurationHandler.java:55-116 | the declared import, once substituted, names the configuration entry the run writes |
| ViewHandler.FindViewFile | service/src/main/java/org/exoplatform/extension/generator/service/handler/SiteExplorerViewConfigurationHandler.java:86-106 | the entry loop stops at the first view file |
| ViewHandler.WriteData | service/src/main/java/org/exoplatform/extension/generator/service/handler/SiteExplorerViewConfigurationHandler.java:69-130 | the archive and the result are those of the modelled run; temporary files are cleared whenever the export was attempted |
| RestHandler.ParseKey | service/src/main/java/org/exoplatform/extension/generator/service/handler/RESTServicesFromIDEConfigurationHandler.java:83-90 | a key parses exactly when, with IDE_REST_PATH removed, it splits on "::" into two parts; the workspace is the first and the script path the second without its first character |
| RestHandler.SplitLastNotEmpty | service/src/main/java/org/exoplatform/extension/generator/service/handler/RESTServicesFromIDEConfigurationHandler.java:84-90 | String.split drops trailing empty parts, so the second part of a two-part key is never empty and the substring at 90 cannot fail |
| RestHandler.ScriptName | service/src/main/java/org/exoplatform/extension/generator/service/handler/RESTServicesFromIDEConfigurationHandler.java:92 | the script name holds no '/' |
| RestHandler.ScriptParent | service/src/main/java/org/exoplatform/extension/generator/service/handler/RESTServicesFromIDEConfigurationHandler.java:93 | the parent path is empty or ends with '/' |
| RestHandler.ScriptPathParts | service/src/main/java/org/exoplatform/extension/generator/service/handler/RESTServicesFromIDEConfigurationHandler.java:92-93 | the parent path followed by the name is the script path; a path without '/' is all name |
| RestHandler.ScriptPluginShape | service/src/main/java/org/exoplatform/extension/generator/service/handler/RESTServicesFromIDEConfigurationHandler.java:100-111 | the plugin is named after the script, has the loader plugin type and "addPlugin", holds the node, the workspace and the properties that autoload the script's copy |
| RestHandler.PluginsMatchCopies | service/src/main/java/org/exoplatform/extension/generator/service/handler/RESTServicesFromIDEConfigurationHandler.java:82-113 | the copies written and the plugins made pair up in order, each plugin loading its own copy |
| RestHandler.StepKeepsPairs | service/src/main/java/org/exoplatform/extension/generator/service/handler/RESTServicesFromIDEConfigurationHandler.java:89-112 | one pass of the key loop keeps copies and plugins paired |
| RestHandler.PluginsFromKeys | service/src/main/java/org/exoplatform/extension/generator/service/handler/RESTServicesFromIDEConfigurationHandler.java:82-113 | every plugin comes from a selected key that parses |
| RestHandler.StepGrows | service/src/main/java/org/exoplatform/extension/generator/service/handler/RESTServicesFromIDEConfigurationHandler.java:82-113 | one more key keeps the earlier plugins and adds the new key's plugin when it parses |
| RestHandler.EveryParsedKeyLoaded | service/src/main/java/org/exoplatform/extension/generator/service/handler/RESTServicesFromIDEConfigurationHandler.java:82-113 | when no script fails to load, every selected key that parses has its plugin (malformed keys are only skipped) |
| RestHandler.FailureSticks | service/src/main/java/org/exoplatform/extension/generator/service/handler/RESTServicesFromIDEConfigurationHandler.java:80-119 | once reading a script fails, the loop's result is settled |
| RestHandler.KeyRoundTrip | service/src/main/java/org/exoplatform/extension/generator/service/handler/RESTServicesFromIDEConfigurationHandler.java:83-90 | a key built as IDE_REST_PATH + workspace + "::" + path parses back into the workspace and the path without its leading '/' |
| RestHandler.LocationKeepsName | service/src/main/java/org/exoplatform/extension/generator/service/handler/RESTServicesFromIDEConfigurationHandler.java:94-98 | a script location keeps its name through the stream writer's "/ecmadmin" removal when the name does not bring one |
| RestHandler.CopyImported | service/src/main/java/org/exoplatform/extension/generator/service/handler/RESTServicesFromIDEConfigurationHandler.java:94-108 | the "path" property, once substituted, imports the entry the script was copied to |
| RestHandler.ConfigurationImported | service/src/main/java/org/exoplatform/extension/generator/service/handler/RESTServicesFromIDEConfigurationHandler.java:59-115 | the declared import, once substituted, names the configuration entry written |
| RestHandler.CopyScript | service/src/main/java/org/exoplatform/extension/generator/service/handler/RESTServicesFromIDEConfigurationHandler.java:83-112 | one pass of the key loop writes the copy and adds the plugin, as the step function says |
| RestHandler.WriteData | service/src/main/java/org/exoplatform/extension/generator/service/handler/RESTServicesFromIDEConfigurationHandler.java:71-120 | the archive and the result are those of the modelled run: any exception is answered false, keeping the copies already written |
| GadgetsHandler.NewGadgetsHandler | service/src/main/java/org/exoplatform/extension/generator/service/handler/GadgetsConfigurationHandler.java:171-173 | a new handler has no temporary files and declares no configuration import |
| GadgetsHandler.UrlSplit | service/src/main/java/org/exoplatform/extension/generator/service/handler/GadgetsConfigurationHandler.java:86-89 | a URL "<prefix><repository>/<workspace>/<rest>" names that workspace and the path "/<rest>" when the workspace is one segment that does not recur |
| GadgetsHandler.FirstSlash | service/src/main/java/org/exoplatform/extension/generator/service/handler/GadgetsConfigurationHandler.java:88 | the workspace ends at the first '/' |
| GadgetsHandler.WorkspaceRemoved | service/src/main/java/org/exoplatform/extension/generator/service/handler/GadgetsConfigurationHandler.java:89 | removing the workspace name leaves "/<rest>" when the name does not recur |
| GadgetsHandler.FolderWritesSound | service/src/main/java/org/exoplatform/extension/generator/service/handler/GadgetsConfigurationHandler.java:142-154 | every entry written for a folder's first children is the copy of a file reachable among them through folders |
| GadgetsHandler.FolderWritesComplete | service/src/main/java/org/exoplatform/extension/generator/service/handler/GadgetsConfigurationHandler.java:142-154 | every file reachable among a folder's first children through folders is copied |
| GadgetsHandler.TreeWritesExactly | service/src/main/java/org/exoplatform/extension/generator/service/handler/GadgetsConfigurationHandler.java:142-154 | the copies of a gadget's folder are exactly the copies of the files reachable from it through folders; other nodes are passed over |
| GadgetsHandler.GadgetFilePathOfDescendant | service/src/main/java/org/exoplatform/extension/generator/service/handler/GadgetsConfigurationHandler.java:147-148 | a file below the grand-parent is copied under "gadgets/<name>" followed by the rest of its path |
| GadgetsHandler.WriteFileNode | service/src/main/java/org/exoplatform/extension/generator/service/handler/GadgetsConfigurationHandler.java:142-154 | the recursive walk appends exactly the folder's copies, in walk order |
| GadgetsHandler.ListedGadgetCopied | service/src/main/java/org/exoplatform/extension/generator/service/handler/GadgetsConfigurationHandler.java:112-121 | a found gadget in a folder other than the root is listed by the path of its XML file, and that file's copy is among the entries written under the listed path |
| GadgetsHandler.GadgetCases | service/src/main/java/org/exoplatform/extension/generator/service/handler/GadgetsConfigurationHandler.java:84-110 | one gadget throws exactly on an unknown gadget, an uncuttable URL, an unknown workspace or a failed lookup; a root parent leaves only its comment; nothing is written unless the parent is a folder other than the root |
| GadgetsHandler.ExportsOf | service/src/main/java/org/exoplatform/extension/generator/service/handler/GadgetsConfigurationHandler.java:83-122 | one result per selected gadget, in order |
| GadgetsHandler.FailureSticks | service/src/main/java/org/exoplatform/extension/generator/service/handler/GadgetsConfigurationHandler.java:76-129 | once a gadget throws, the gadgets after it change nothing |
| GadgetsHandler.ScanStartsWithHeader | service/src/main/java/org/exoplatform/extension/generator/service/handler/GadgetsConfigurationHandler.java:79-82 | the text always starts with the XML declaration and the opening element |
| GadgetsHandler.ScanFailsIff | service/src/main/java/org/exoplatform/extension/generator/service/handler/GadgetsConfigurationHandler.java:83-129 | the loop ends in an exception exactly when one of the gadgets throws |
| GadgetsHandler.RunOutcomes | service/src/main/java/org/exoplatform/extension/generator/service/handler/GadgetsConfigurationHandler.java:68-129 | an empty selection returns false before anything; otherwise the result is true exactly when no gadget throws, and false otherwise |
| GadgetsHandler.XmlTextShape | service/src/main/java/org/exoplatform/extension/generator/service/handler/GadgetsConfigurationHandler.java:79-123 | the gadget.xml text opens with the header and closes the gadgets element |
| GadgetsHandler.GadgetsXmlLast | service/src/main/java/org/exoplatform/extension/generator/service/handler/GadgetsConfigurationHandler.java:123-125 | a run that returns true writes gadget.xml last, with that shape |
| GadgetsHandler.ExportGadget | service/src/main/java/org/exoplatform/extension/generator/service/handler/GadgetsConfigurationHandler.java:84-121 | one iteration writes and appends what the per-gadget function says, or nothing when it throws |
| GadgetsHandler.ExportFound | service/src/main/java/org/exoplatform/extension/generator/service/handler/GadgetsConfigurationHandler.java:92-121 | the skip rules, then the folder copy and the gadget's element |
| GadgetsHandler.WriteData | service/src/main/java/org/exoplatform/extension/generator/service/handler/GadgetsConfigurationHandler.java:68-130 | the archive and the result are those of the modelled run, copies made before an exception kept |
| MopSiteHandler.SiteResourcePath | service/src/main/java/org/exoplatform/extension/generator/service/handler/MOPSiteConfigurationHandler.java:76 | the managed path of a site type's sites is never empty, so the filter is well defined |
| MopSiteHandler.NewMopSiteHandler | service/src/main/java/org/exoplatform/extension/generator/service/handler/MOPSiteConfigurationHandler.java:74-78 | the handler of one site type declares that type's configuration file in war: form |
| MopSiteHandler.SiteEntries | service/src/main/java/org/exoplatform/extension/generator/service/handler/MOPSiteConfigurationHandler.java:95-111 | every exported file is copied, in order, under the portal configuration directory with its bytes unchanged |
| MopSiteHandler.SiteWritesExactly | service/src/main/java/org/exoplatform/extension/generator/service/handler/MOPSiteConfigurationHandler.java:91-124 | every entry written copies an entry exported for some selected site; when no export fails every exported entry is copied; and no export fails exactly when every selected site exports |
| MopSiteHandler.ListenerDeclaresSites | service/src/main/java/org/exoplatform/extension/generator/service/handler/MOPSiteConfigurationHandler.java:129-140 | a successful run holds one "<type>.config.user.listener" plugin on the user-portal configuration service whose object parameter names the site type, the selected site names and the substituted war: template location |
| MopSiteHandler.ConfigurationImported | service/src/main/java/org/exoplatform/extension/generator/service/handler/MOPSiteConfigurationHandler.java:77-141 | the declared import, once substituted, names the configuration entry written |
| MopSiteHandler.CopySiteEntries | service/src/main/java/org/exoplatform/extension/generator/service/handler/MOPSiteConfigurationHandler.java:95-111 | the copy loop appends the copies of one export |
| MopSiteHandler.ExportSite | service/src/main/java/org/exoplatform/extension/generator/service/handler/MOPSiteConfigurationHandler.java:93-123 | one pass of the export loop does what the step function says |
| MopSiteHandler.WriteData | service/src/main/java/org/exoplatform/extension/generator/service/handler/MOPSiteConfigurationHandler.java:83-142 | the archive and the result are those of the modelled run; a failed export escapes after the temporary files are cleared |
| MopSiteHandler.FailureSticks | service/src/main/java/org/exoplatform/extension/generator/service/handler/MOPSiteConfigurationHandler.java:90-127 | once an export fails the run's result is settled |
| SiteContentsHandler.NewSiteContentsHandler | service/src/main/java/org/exoplatform/extension/generator/service/handler/SiteContentsConfigurationHandler.java:44-50 | a new handler has no temporary files and declares the content deployment configuration in war: form |
| SiteContentsHandler.IndexOfFrom | service/src/main/java/org/exoplatform/extension/generator/service/handler/SiteContentsConfigurationHandler.java:215 | String.indexOf(char, from): the index found holds the character and none before it from `from` on does; -1 when there is none |
| SiteContentsHandler.SiteNameOfExactly | service/src/main/java/org/exoplatform/extension/generator/service/handler/SiteContentsConfigurationHandler.java:211-218 | a site name is extracted exactly when a '/' follows the root path and one character; it is the '/'-free text up to the first such '/' |
| SiteContentsHandler.SiteNameOfSitePath | service/src/main/java/org/exoplatform/extension/generator/service/handler/SiteContentsConfigurationHandler.java:211-218 | a path "<root>/<site>/<rest>" names that site |
| SiteContentsHandler.EntriesFailureSticks | service/src/main/java/org/exoplatform/extension/generator/service/handler/SiteContentsConfigurationHandler.java:77-114 | once an entry fails, the rest of the entry loop changes nothing |
| SiteContentsHandler.FailedEntriesUnchanged | service/src/main/java/org/exoplatform/extension/generator/service/handler/SiteContentsConfigurationHandler.java:110-113 | after a failure the entries of later exports are not looked at |
| SiteContentsHandler.SitesFailureSticks | service/src/main/java/org/exoplatform/extension/generator/service/handler/SiteContentsConfigurationHandler.java:67-124 | once an entry fails, the later sites change nothing |
| SiteContentsHandler.FailedExportsSwallowed | service/src/main/java/org/exoplatform/extension/generator/service/handler/SiteContentsConfigurationHandler.java:115-123 | a site whose export throws is skipped without failing the run |
| SiteContentsHandler.StepCoherent | service/src/main/java/org/exoplatform/extension/generator/service/handler/SiteContentsConfigurationHandler.java:81-109 | one entry keeps the gathered state coherent: sites distinct, the sites with metadata exactly those recorded, no listed location a version-history file |
| SiteContentsHandler.MetadataSiteAdded | service/src/main/java/org/exoplatform/extension/generator/service/handler/SiteContentsConfigurationHandler.java:87 | recording a new site's metadata keeps the state coherent |
| SiteContentsHandler.LocationListed | service/src/main/java/org/exoplatform/extension/generator/service/handler/SiteContentsConfigurationHandler.java:97-107 | giving a site its list and listing a non-history location keeps the state coherent |
| SiteContentsHandler.EntriesCoherent | service/src/main/java/org/exoplatform/extension/generator/service/handler/SiteContentsConfigurationHandler.java:77-114 | the entry loop keeps the state coherent |
| SiteContentsHandler.SitesCoherent | service/src/main/java/org/exoplatform/extension/generator/service/handler/SiteContentsConfigurationHandler.java:67-124 | the site loop ends in a coherent state |
| SiteContentsHandler.StepWrites | service/src/main/java/org/exoplatform/extension/generator/service/handler/SiteContentsConfigurationHandler.java:81-109 | an entry fails exactly when its site name cannot be extracted or its metadata does not unmarshal; only a content file that splits in two is copied, at the part after the separator |
| SiteContentsHandler.RemoveFirst | service/src/main/java/org/exoplatform/extension/generator/service/handler/SiteContentsConfigurationHandler.java:131 | ArrayList.remove(Object) takes out one occurrence and keeps every other element |
| SiteContentsHandler.IgnoredSitesExactly | service/src/main/java/org/exoplatform/extension/generator/service/handler/SiteContentsConfigurationHandler.java:130-132 | the ignored sites are exactly the sites with metadata other than "shared", and the list is empty exactly when no other site was gathered |
| SiteContentsHandler.SharedRemoved | service/src/main/java/org/exoplatform/extension/generator/service/handler/SiteContentsConfigurationHandler.java:130-131 | removing the one "shared" of distinct sites leaves none |
| SiteContentsHandler.Descriptor | service/src/main/java/org/exoplatform/extension/generator/service/handler/SiteContentsConfigurationHandler.java:162-177 | a location without '/' makes substring throw; every other gives a descriptor |
| SiteContentsHandler.DescriptorFacts | service/src/main/java/org/exoplatform/extension/generator/service/handler/SiteContentsConfigurationHandler.java:162-177 | the descriptor has the war: source path, the site's workspace when given, the node path up to the last '/', a version-history path exactly when a partner was seen, and no publication cleanup |
| SiteContentsHandler.LocationParams | service/src/main/java/org/exoplatform/extension/generator/service/handler/SiteContentsConfigurationHandler.java:161-182 | one object parameter per listed location, in order, holding its descriptor; None when a location has no '/' |
| SiteContentsHandler.AllPresent | service/src/main/java/org/exoplatform/extension/generator/service/handler/SiteContentsConfigurationHandler.java:147-183 | the values in order when every option is present, None otherwise |
| SiteContentsHandler.SitePlugins | service/src/main/java/org/exoplatform/extension/generator/service/handler/SiteContentsConfigurationHandler.java:147-183 | one plugin per site in order, or None exactly when some site's plugin cannot be built |
| SiteContentsHandler.ContentGroupHolds | service/src/main/java/org/exoplatform/extension/generator/service/handler/SiteContentsConfigurationHandler.java:145-155 | the content group holds every plugin in order, and targets the initializer service once it holds one |
| SiteContentsHandler.RunOutcomes | service/src/main/java/org/exoplatform/extension/generator/service/handler/SiteContentsConfigurationHandler.java:57-196 | an empty selection returns false; a failed entry returns false after the copies made; a site whose plugin cannot be built escapes; otherwise the run reaches its configuration |
| SiteContentsHandler.AddParamsAgreeing | service/src/main/java/org/exoplatform/extension/generator/service/handler/SiteContentsConfigurationHandler.java:152-181 | parameters that agree on each name leave that parameter under its name |
| SiteContentsHandler.OverrideThenLocationsKeys | service/src/main/java/org/exoplatform/extension/generator/service/handler/SiteContentsConfigurationHandler.java:148-182 | the flag followed by the location parameters declares exactly "override" and the locations |
| SiteContentsHandler.OverrideThenLocationsValues | service/src/main/java/org/exoplatform/extension/generator/service/handler/SiteContentsConfigurationHandler.java:148-182 | each location's parameter, and the flag when no location is named "override", is the one declared |
| SiteContentsHandler.SitePluginParams | service/src/main/java/org/exoplatform/extension/generator/service/handler/SiteContentsConfigurationHandler.java:148-182 | a site plugin is "<site> Content Initializer Service" of the deployment plugin type with "addPlugin", declaring the override flag and one descriptor per listed location |
| SiteContentsHandler.SitePluginNamed | service/src/main/java/org/exoplatform/extension/generator/service/handler/SiteContentsConfigurationHandler.java:154 | a site plugin is named after its site |
| SiteContentsHandler.RunDocument | service/src/main/java/org/exoplatform/extension/generator/service/handler/SiteContentsConfigurationHandler.java:185-195 | a run that reaches its configuration writes the document made of the gathered sites' plugins |
| SiteContentsHandler.DocumentShape | service/src/main/java/org/exoplatform/extension/generator/service/handler/SiteContentsConfigurationHandler.java:185-193 | the document holds the initializer component and the content group, and the ignore group exactly when a site other than "shared" was gathered |
| SiteContentsHandler.DocumentPlugins | service/src/main/java/org/exoplatform/extension/generator/service/handler/SiteContentsConfigurationHandler.java:145-155 | the content group holds one plugin per gathered site, in order, each named after its site |
| SiteContentsHandler.ContentSourceForm | service/src/main/java/org/exoplatform/extension/generator/service/handler/SiteContentsConfigurationHandler.java:164 | the source paths start with "war:/conf/<name>/wcm/content" |
| SiteContentsHandler.ConfigurationImported | service/src/main/java/org/exoplatform/extension/generator/service/handler/SiteContentsConfigurationHandler.java:44-50 | the declared import, once substituted, names the configuration entry written |
| SiteContentsHandler.GatherMetadata | service/src/main/java/org/exoplatform/extension/generator/service/handler/SiteContentsConfigurationHandler.java:82-88 | a metadata entry is recorded as the step function says |
| SiteContentsHandler.GatherContent | service/src/main/java/org/exoplatform/extension/generator/service/handler/SiteContentsConfigurationHandler.java:91-108 | a content entry is listed and copied as the step function says |
| SiteContentsHandler.GatherEntry | service/src/main/java/org/exoplatform/extension/generator/service/handler/SiteContentsConfigurationHandler.java:78-109 | one entry as the step function says |
| SiteContentsHandler.GatherSiteEntries | service/src/main/java/org/exoplatform/extension/generator/service/handler/SiteContentsConfigurationHandler.java:76-114 | the entry loop of one export as the gathering function says |
| SiteContentsHandler.GatherAll | service/src/main/java/org/exoplatform/extension/generator/service/handler/SiteContentsConfigurationHandler.java:66-127 | the site loop as the gathering function says, its copies appended to the archive |
| SiteContentsHandler.LocationParamsSnoc | service/src/main/java/org/exoplatform/extension/generator/service/handler/SiteContentsConfigurationHandler.java:161-182 | one more location adds its parameter, or fails |
| SiteContentsHandler.DeclareOneMore | service/src/main/java/org/exoplatform/extension/generator/service/handler/SiteContentsConfigurationHandler.java:181 | adding one more parameter to the plugin's parameters is declaring it last |
| SiteContentsHandler.BuildSiteParams | service/src/main/java/org/exoplatform/extension/generator/service/handler/SiteContentsConfigurationHandler.java:148-182 | the parameter loop builds the flag and the location parameters, or fails where a location has no '/' |
| SiteContentsHandler.BuildSitePlugin | service/src/main/java/org/exoplatform/extension/generator/service/handler/SiteContentsConfigurationHandler.java:147-182 | one site's plugin as the specification function says |
| SiteContentsHandler.BuildContentGroup | service/src/main/java/org/exoplatform/extension/generator/service/handler/SiteContentsConfigurationHandler.java:145-183 | the site loop builds the content group, or fails when a site's plugin cannot be built |
| SiteContentsHandler.WriteData | service/src/main/java/org/exoplatform/extension/generator/service/handler/SiteContentsConfigurationHandler.java:57-196 | the archive and the result are those of the modelled run; temporary files are cleared once sites were selected |
| ActionNodeTypeHandler.NewActionNodeTypeHandler | service/src/main/java/org/exoplatform/extension/generator/service/handler/ActionNodeTypeConfigurationHandler.java:56-59 | a new handler has no temporary files and declares the action configuration in war: form |
| ActionNodeTypeHandler.ActionValues | service/src/main/java/org/exoplatform/extension/generator/service/handler/ActionNodeTypeConfigurationHandler.java:90-97 | one registered value per exported entry, in order |
| ActionNodeTypeHandler.ActionCopies | service/src/main/java/org/exoplatform/extension/generator/service/handler/ActionNodeTypeConfigurationHandler.java:90-104 | one copy per exported entry, in order |
| ActionNodeTypeHandler.RunOutcomes | service/src/main/java/org/exoplatform/extension/generator/service/handler/ActionNodeTypeConfigurationHandler.java:67-116 | an empty selection returns false; a failed export escapes having written nothing; otherwise the run writes its configuration |
| ActionNodeTypeHandler.PluginShape | service/src/main/java/org/exoplatform/extension/generator/service/handler/ActionNodeTypeConfigurationHandler.java:83-97 | the configuration holds one "add.nodetype" plugin of the repository service whose only parameter lists one value per exported entry, in the order the entries are copied |
| ActionNodeTypeHandler.JcrDirHasNoEcmadmin | service/src/main/java/org/exoplatform/extension/generator/service/handler/ActionNodeTypeConfigurationHandler.java:53 | the JCR directory holds no "/ecmadmin" |
| ActionNodeTypeHandler.JcrTailSubstituted | service/src/main/java/org/exoplatform/extension/generator/service/handler/ActionNodeTypeConfigurationHandler.java:53-95 | the directory below the WAR root, name substituted, is "/conf/<name>/jcr" |
| ActionNodeTypeHandler.JcrDirSubstituted | service/src/main/java/org/exoplatform/extension/generator/service/handler/ActionNodeTypeConfigurationHandler.java:53 | the whole directory, name substituted |
| ActionNodeTypeHandler.JcrDirWarForm | service/src/main/java/org/exoplatform/extension/generator/service/handler/ActionNodeTypeConfigurationHandler.java:95 | the directory in war: form |
| ActionNodeTypeHandler.JcrDirImportForm | service/src/main/java/org/exoplatform/extension/generator/service/handler/ActionNodeTypeConfigurationHandler.java:95 | the directory in war: form, name substituted |
| ActionNodeTypeHandler.SlashNotEcmadmin | service/src/main/java/org/exoplatform/extension/generator/service/handler/ActionNodeTypeConfigurationHandler.java:95 | a '/' before text not starting with "ecmadmin" is not where "/ecmadmin" starts |
| ActionNodeTypeHandler.PlainNameThenJcr | service/src/main/java/org/exoplatform/extension/generator/service/handler/ActionNodeTypeConfigurationHandler.java:95 | a plain name followed by "/jcr" does not start with "ecmadmin" |
| ActionNodeTypeHandler.NameThenJcrKept | service/src/main/java/org/exoplatform/extension/generator/service/handler/ActionNodeTypeConfigurationHandler.java:95 | the name and "/jcr" lose nothing to the "/ecmadmin" removal |
| ActionNodeTypeHandler.ImportDirHasNoEcmadmin | service/src/main/java/org/exoplatform/extension/generator/service/handler/ActionNodeTypeConfigurationHandler.java:95 | the substituted war: directory loses nothing to the "/ecmadmin" removal |
| ActionNodeTypeHandler.CopyName | service/src/main/java/org/exoplatform/extension/generator/service/handler/ActionNodeTypeConfigurationHandler.java:93-100 | the copy's name is the substituted directory, then the entry name with "/ecmadmin" removed |
| ActionNodeTypeHandler.RestUnchanged | service/src/main/java/org/exoplatform/extension/generator/service/handler/ActionNodeTypeConfigurationHandler.java:95 | an entry name without "WEB-INF" or the placeholder is unchanged by both replacements |
| ActionNodeTypeHandler.RegisteredValue | service/src/main/java/org/exoplatform/extension/generator/service/handler/ActionNodeTypeConfigurationHandler.java:95 | the registered value is the war: directory, then the entry name with "/ecmadmin" removed |
| ActionNodeTypeHandler.ValueImportsCopy | service/src/main/java/org/exoplatform/extension/generator/service/handler/ActionNodeTypeConfigurationHandler.java:93-100 | for a plain extension name, each registered value is the war: import of the entry its file is copied to |
| ActionNodeTypeHandler.ConfigurationImported | service/src/main/java/org/exoplatform/extension/generator/service/handler/ActionNodeTypeConfigurationHandler.java:56-115 | the declared import, once substituted, names the configuration entry written |
| ActionNodeTypeHandler.CopyActions | service/src/main/java/org/exoplatform/extension/generator/service/handler/ActionNodeTypeConfigurationHandler.java:90-104 | the entry loop registers each value and copies each entry, as the specification functions say |
| ActionNodeTypeHandler.WriteData | service/src/main/java/org/exoplatform/extension/generator/service/handler/ActionNodeTypeConfigurationHandler.java:67-116 | the archive and the result are those of the modelled run; the temporary files are cleared once the export was attempted |
| NodeTypeHandler.DeclaredType | service/src/main/java/org/exoplatform/extension/generator/service/handler/NodeTypeConfigurationHandler.java:237-251 | a file contributes a type exactly when it unmarshals to exactly one declared type the repository knows; that type is the one contributed |
| NodeTypeHandler.Collected | service/src/main/java/org/exoplatform/extension/generator/service/handler/NodeTypeConfigurationHandler.java:138-150 | every collected type is one the repository knows |
| NodeTypeHandler.CollectedFacts | service/src/main/java/org/exoplatform/extension/generator/service/handler/NodeTypeConfigurationHandler.java:138-150 | the collected types are exactly the types declared alone by the exported files other than the namespace configuration, at most one per file |
| NodeTypeHandler.ConfigurationImported | service/src/main/java/org/exoplatform/extension/generator/service/handler/NodeTypeConfigurationHandler.java:76-80 | the declared import, once substituted, names the configuration entry written |
| NodeTypeHandler.PluginListsWrittenFile | service/src/main/java/org/exoplatform/extension/generator/service/handler/NodeTypeConfigurationHandler.java:127-133 | the "add.nodetype" plugin has priority 100 and the add-node-type plugin type, and its one value imports the nodetypes.xml entry written |
| NodeTypeHandler.RunDeclines | service/src/main/java/org/exoplatform/extension/generator/service/handler/NodeTypeConfigurationHandler.java:103-107 | nothing selected, a failed export or a namespace configuration without a repository-service group (the null group) gives false with nothing written |
| NodeTypeHandler.RunReaches | service/src/main/java/org/exoplatform/extension/generator/service/handler/NodeTypeConfigurationHandler.java:118-176 | otherwise the run writes nodetypes.xml from the sorted types, then the configuration holding the namespace group with the plugin appended |
| NodeTypeHandler.CollectNodeTypes | service/src/main/java/org/exoplatform/extension/generator/service/handler/NodeTypeConfigurationHandler.java:138-150 | the entry loop collects what the specification function says |
| NodeTypeHandler.WriteData | service/src/main/java/org/exoplatform/extension/generator/service/handler/NodeTypeConfigurationHandler.java:103-191 | the archive and the result are those of the modelled run, and the types written are a dependency-ordered permutation of those collected, unchanged when they already were ordered |
| NodeTypeOrder.DepsOf | service/src/main/java/org/exoplatform/extension/generator/service/handler/NodeTypeConfigurationHandler.java:199-207 | getDependencies extends the list it is given, keeping it duplicate-free |
| NodeTypeOrder.DepsList | service/src/main/java/org/exoplatform/extension/generator/service/handler/NodeTypeConfigurationHandler.java:200-206 | the loop over the supertypes extends the list, keeping it duplicate-free |
| NodeTypeOrder.DepsOfComplete | service/src/main/java/org/exoplatform/extension/generator/service/handler/NodeTypeConfigurationHandler.java:199-207 | every direct supertype is added, and so is every supertype of a type added |
| NodeTypeOrder.DepsOfSound | service/src/main/java/org/exoplatform/extension/generator/service/handler/NodeTypeConfigurationHandler.java:199-207 | every type added is an ancestor |
| NodeTypeOrder.DependenciesExact | service/src/main/java/org/exoplatform/extension/generator/service/handler/NodeTypeConfigurationHandler.java:199-207 | the dependencies of a type are duplicate-free and are exactly its ancestors along supertype links |
| NodeTypeOrder.NotOwnDependency | service/src/main/java/org/exoplatform/extension/generator/service/handler/NodeTypeConfigurationHandler.java:199-207 | in an acyclic hierarchy no type is its own dependency |
| NodeTypeOrder.DependencyTransitive | service/src/main/java/org/exoplatform/extension/generator/service/handler/NodeTypeConfigurationHandler.java:199-207 | a dependency of a dependency is a dependency |
| NodeTypeOrder.IndexIn | service/src/main/java/org/exoplatform/extension/generator/service/handler/NodeTypeConfigurationHandler.java:156-162 | Vector.indexOf: the first index holding the element, or -1 exactly when it is absent |
| NodeTypeOrder.MoveAfter | service/src/main/java/org/exoplatform/extension/generator/service/handler/NodeTypeConfigurationHandler.java:164-165 | remove(a) then add(b, x) puts the element at b just after the one that was there, shifts the elements between down by one, and keeps the multiset |
| NodeTypeOrder.MovedIndex | service/src/main/java/org/exoplatform/extension/generator/service/handler/NodeTypeConfigurationHandler.java:164-165 | where each element ends up after the move |
| NodeTypeOrder.MoveKeepsPlaced | service/src/main/java/org/exoplatform/extension/generator/service/handler/NodeTypeConfigurationHandler.java:161-168 | moving a type past one of its dependencies leaves every other type that was after all its dependencies still after them |
| NodeTypeOrder.RelocatingMove | service/src/main/java/org/exoplatform/extension/generator/service/handler/NodeTypeConfigurationHandler.java:162-167 | a dependency found after the type makes it move just past that dependency, keeping the inner loop's invariant |
| NodeTypeOrder.RelocatingStay | service/src/main/java/org/exoplatform/extension/generator/service/handler/NodeTypeConfigurationHandler.java:162-163 | a dependency already before the type leaves it where it is |
| NodeTypeOrder.RelocatingDone | service/src/main/java/org/exoplatform/extension/generator/service/handler/NodeTypeConfigurationHandler.java:161-170 | after the dependency loop the type comes after all its dependencies, and it moved exactly when it did not already |
| NodeTypeOrder.RelocateAfterDependencies | service/src/main/java/org/exoplatform/extension/generator/service/handler/NodeTypeConfigurationHandler.java:155-169 | one pass of the outer loop: a permutation keeping the prefix, placing the type after its dependencies, unplacing nothing, and reporting whether it moved |
| NodeTypeOrder.SortMisplacedShrinks | service/src/main/java/org/exoplatform/extension/generator/service/handler/NodeTypeConfigurationHandler.java:153-173 | a pass that moves the type strictly shrinks the set of misplaced types, so the loop ends |
| NodeTypeOrder.SortStep | service/src/main/java/org/exoplatform/extension/generator/service/handler/NodeTypeConfigurationHandler.java:153-173 | each pass keeps the sort invariant, with i advancing only when nothing moved |
| NodeTypeOrder.SortDone | service/src/main/java/org/exoplatform/extension/generator/service/handler/NodeTypeConfigurationHandler.java:154 | when i reaches the end every type comes after all its dependencies |
| NodeTypeOrder.SortByDependencies | service/src/main/java/org/exoplatform/extension/generator/service/handler/NodeTypeConfigurationHandler.java:152-173 | the sort returns a duplicate-free permutation in which every type follows all its dependencies, and leaves an already ordered list unchanged |
| Listing.Insert | service/src/main/java/org/exoplatform/extension/generator/service/ExtensionGeneratorImpl.java:477 | inserting a child into a list adds exactly that child and keeps a name-sorted list sorted |
| Listing.SortByName | service/src/main/java/org/exoplatform/extension/generator/service/ExtensionGeneratorImpl.java:477 | Collections.sort on the children: a permutation of them, ordered by name |
| Listing.ChildNodes | service/src/main/java/org/exoplatform/extension/generator/service/ExtensionGeneratorImpl.java:471-476 | one node per child, in order, with the child's name, its description, and the resource path, '/' and the name |
| Listing.ResourceNodesFacts | service/src/main/java/org/exoplatform/extension/generator/service/ExtensionGeneratorImpl.java:457-481 | a null children set throws; a resource without children lists itself under its own path; one with children lists exactly its children, one node each, in name order, each under path + "/" + name |
| Listing.GetNodes | service/src/main/java/org/exoplatform/extension/generator/service/ExtensionGeneratorImpl.java:457-481 | a failed read is an exception, and so is a null children set (sized before its null test); otherwise fresh nodes showing the listing of the resource |
| Listing.GuardedResourceNodesFacts | service/src/main/java/org/exoplatform/extension/generator/service/ExtensionGeneratorImpl.java:465-476 | with the null test made first, the listing never throws and is never empty, lists the resource itself exactly when its children set is null or empty, and agrees with getNodes wherever getNodes returns |
| Listing.NullChildrenThrow | service/src/main/java/org/exoplatform/extension/generator/service/ExtensionGeneratorImpl.java:465-466 | a null children set throws at the sizing, where the null test meant to list the resource itself |
| Listing.ValueOf | service/src/main/java/org/exoplatform/extension/generator/service/ExtensionGeneratorImpl.java:541-544 | getValueParam(name).getValue() yields a value exactly when a value parameter of that name exists, and then its value |
| Listing.PredefinedScriptsExactly | service/src/main/java/org/exoplatform/extension/generator/service/ExtensionGeneratorImpl.java:486-552 | the predefined scripts are exactly those some loader plugin declares, and collecting them throws exactly when one plugin's parameters are broken |
| Listing.PluginScriptsOf | service/src/main/java/org/exoplatform/extension/generator/service/ExtensionGeneratorImpl.java:539-549 | a loader plugin with a "workspace" and a "node" value lists every properties parameter as workspace + "::" + node + "/" + name |
| Listing.ScriptNodesExactly | service/src/main/java/org/exoplatform/extension/generator/service/ExtensionGeneratorImpl.java:289-297 | one workspace lists exactly its saved scripts whose workspace-qualified key is not predefined |
| Listing.WorkspaceNodesExactly | service/src/main/java/org/exoplatform/extension/generator/service/ExtensionGeneratorImpl.java:285-298 | the workspace loop fails exactly when some workspace's listing throws; the REST listing holds exactly the not-predefined saved scripts of the workspaces before the first one that throws |
| Listing.ListedCountFirst | service/src/main/java/org/exoplatform/extension/generator/service/ExtensionGeneratorImpl.java:285-300 | the workspaces listed are those before the first whose listing throws: each of them lists, and the next one throws |
| Listing.WorkspaceFailureSticks | service/src/main/java/org/exoplatform/extension/generator/service/ExtensionGeneratorImpl.java:285-300 | once a workspace's listing has thrown, the later workspaces change nothing (the catch ends the loop) |
| Listing.ListedScriptSelectsIt | service/src/main/java/org/exoplatform/extension/generator/service/ExtensionGeneratorImpl.java:294-295 | a listed script's path is parsed back by the REST handler into its workspace and script path |
| Listing.ListScripts | service/src/main/java/org/exoplatform/extension/generator/service/ExtensionGeneratorImpl.java:289-297 | the inner loop creates nodes showing one workspace's listing |
| Listing.GetRestServices | service/src/main/java/org/exoplatform/extension/generator/service/ExtensionGeneratorImpl.java:273-304 | no REST loader lists nothing; broken predefined-script parameters are an exception; otherwise nodes showing the not-predefined scripts of the workspaces listed before the first listing that throws |
| Listing.GadgetNodesExactly | service/src/main/java/org/exoplatform/extension/generator/service/ExtensionGeneratorImpl.java:318-325 | the gadget listing holds exactly the local gadgets and those whose URL contains "jcr/repository", never more nodes than gadgets |
| Listing.GadgetPathRoundTrip | service/src/main/java/org/exoplatform/extension/generator/service/ExtensionGeneratorImpl.java:323 | a listed gadget's path gives back the gadget's name in the gadgets handler |
| Listing.GetGadgets | service/src/main/java/org/exoplatform/extension/generator/service/ExtensionGeneratorImpl.java:310-329 | no gadget registry, or a getAllGadgets that throws, lists nothing; otherwise nodes showing the exportable gadgets in registry order |
| WarAssembly.DeclaredPathImportsFile | service/src/main/java/org/exoplatform/extension/generator/service/ExtensionGeneratorImpl.java:392-396 | for every handler that configures, its one configuration path with the extension name substituted imports the file it writes |
| WarAssembly.KindsDistinct | service/src/main/java/org/exoplatform/extension/generator/service/ExtensionGeneratorImpl.java:115-134 | the constructor registers no handler twice, and the site handler once per site type |
| WarAssembly.RegisteredKind | service/src/main/java/org/exoplatform/extension/generator/service/ExtensionGeneratorImpl.java:116-117 | the action node-type handler is not registered |
| WarAssembly.SubstituteEach | service/src/main/java/org/exoplatform/extension/generator/service/ExtensionGeneratorImpl.java:394-395 | every configuration path has "custom-extension" replaced by the extension name, in order |
| WarAssembly.AssembledPrefix | service/src/main/java/org/exoplatform/extension/generator/service/ExtensionGeneratorImpl.java:385-400 | later handlers do not change what earlier ones wrote or imported |
| WarAssembly.AssembledSnoc | service/src/main/java/org/exoplatform/extension/generator/service/ExtensionGeneratorImpl.java:385-400 | one more handler applies its writes to the archive so far and appends its imports |
| WarAssembly.AssembledGrows | service/src/main/java/org/exoplatform/extension/generator/service/ExtensionGeneratorImpl.java:385-400 | the handler loop only ever adds entries to the WAR and keeps entry names unique |
| WarAssembly.TurnGrows | service/src/main/java/org/exoplatform/extension/generator/service/ExtensionGeneratorImpl.java:387 | one handler's turn keeps the earlier entries and unique names |
| WarAssembly.ContributionImported | service/src/main/java/org/exoplatform/extension/generator/service/ExtensionGeneratorImpl.java:388-396 | every path a handler contributes by returning true is imported by configuration.xml |
| WarAssembly.ImportContributed | service/src/main/java/org/exoplatform/extension/generator/service/ExtensionGeneratorImpl.java:388-396 | every import of configuration.xml was contributed by a handler that returned true |
| WarAssembly.ImportsAreContributions | service/src/main/java/org/exoplatform/extension/generator/service/ExtensionGeneratorImpl.java:385-402 | configuration.xml imports exactly the substituted paths of the handlers whose writeData returned true |
| WarAssembly.TurnResolves | service/src/main/java/org/exoplatform/extension/generator/service/ExtensionGeneratorImpl.java:388-396 | a modelled handler that returned true has written the file each of its contributed imports names |
| WarAssembly.AssembledInWar | service/src/main/java/org/exoplatform/extension/generator/service/ExtensionGeneratorImpl.java:402-406 | writing configuration.xml and web.xml keeps every entry the handlers wrote |
| WarAssembly.ContributionResolves | service/src/main/java/org/exoplatform/extension/generator/service/ExtensionGeneratorImpl.java:380-414 | every import a modelled handler contributes names a file present in the finished WAR |
| WarAssembly.ImportsResolve | service/src/main/java/org/exoplatform/extension/generator/service/ExtensionGeneratorImpl.java:380-414 | the WAR's configuration.xml imports no file that a modelled handler failed to write |
| WarAssembly.PlainNameUnchanged | service/src/main/java/org/exoplatform/extension/generator/service/api/Utils.java:166-196 | an entry name without a leading '/', 'd' or 's' is written unchanged |
| WarAssembly.ConfigurationXmlName | service/src/main/java/org/exoplatform/extension/generator/service/ExtensionGeneratorImpl.java:402 | configuration.xml is written under WEB-INF/conf/configuration.xml |
| WarAssembly.WebXmlName | service/src/main/java/org/exoplatform/extension/generator/service/ExtensionGeneratorImpl.java:405-406 | web.xml is written under WEB-INF/web.xml |
| WarAssembly.WarHasMainFiles | service/src/main/java/org/exoplatform/extension/generator/service/ExtensionGeneratorImpl.java:402-406 | the WAR holds configuration.xml and web.xml, and configuration.xml holds exactly the collected imports unless a handler already wrote that name |
| WarAssembly.NoImportUnlessTrue | service/src/main/java/org/exoplatform/extension/generator/service/ExtensionGeneratorImpl.java:388-389 | a handler that returns false or throws contributes no import, and the gadgets handler never does |
| WarAssembly.ActivationJarLayout | service/src/main/java/org/exoplatform/extension/generator/service/ExtensionGeneratorImpl.java:441-448 | the activation JAR holds one entry, conf/configuration.xml, with the template's text |
| WarAssembly.StreamNameKeepsHead | service/src/main/java/org/exoplatform/extension/generator/service/api/Utils.java:166-196 | an entry name whose first segment has no '/' and no 'c' keeps that segment |
| WarAssembly.PackageNames | service/src/main/java/org/exoplatform/extension/generator/service/ExtensionGeneratorImpl.java:342-344 | the WAR is written under webapps/ and the activation JAR under lib/, under distinct names |
| WarAssembly.PackageLayout | service/src/main/java/org/exoplatform/extension/generator/service/ExtensionGeneratorImpl.java:337-348 | the package is exactly the WAR entry, then the JAR entry |
| WarAssembly.CopyTargetUnderRoot | service/src/main/java/org/exoplatform/extension/generator/service/api/Utils.java:128-134 | a copied entry lands at root + "/" + name |
| WarAssembly.MavenProjectFacts | service/src/main/java/org/exoplatform/extension/generator/service/ExtensionGeneratorImpl.java:354-372 | the Maven project keeps the template's files first, has unique names, and holds every WAR entry below war/src/main/webapp |
| Generator.ListTurnKind | service/src/main/java/org/exoplatform/extension/generator/service/ExtensionGeneratorImpl.java:385-387 | walking the handler list reaches, at position i, the handler of the kind registered there |
| Generator.KindsRegistered | service/src/main/java/org/exoplatform/extension/generator/service/ExtensionGeneratorImpl.java:116-117 | the generator never runs the action node-type handler |
| Generator.TurnAtKind | service/src/main/java/org/exoplatform/extension/generator/service/ExtensionGeneratorImpl.java:385-387 | the handler at position i runs its own kind's writeData |
| Generator.TurnsUpTo | service/src/main/java/org/exoplatform/extension/generator/service/ExtensionGeneratorImpl.java:385-400 | the first n handlers' turns are one per handler, in registration order |
| Generator.Turns | service/src/main/java/org/exoplatform/extension/generator/service/ExtensionGeneratorImpl.java:385-400 | every registered handler takes exactly one turn |
| Generator.TurnsUpToAt | service/src/main/java/org/exoplatform/extension/generator/service/ExtensionGeneratorImpl.java:385-400 | turn i is the turn of the handler registered at position i |
| Generator.TurnIgnoresOrder | service/src/main/java/org/exoplatform/extension/generator/service/ExtensionGeneratorImpl.java:385-387 | only the node-type handler's turn depends on the order its sort chose |
| Generator.TurnAShaped | service/src/main/java/org/exoplatform/extension/generator/service/ExtensionGeneratorImpl.java:385-387 | the node-type, registry, site and scripts handlers keep their paths and return true only through their configuration file |
| Generator.TurnBShaped | service/src/main/java/org/exoplatform/extension/generator/service/ExtensionGeneratorImpl.java:385-387 | the drives handler returns true only after writing the file its reported path imports; the template and site-contents handlers keep their paths |
| Generator.TurnCShaped | service/src/main/java/org/exoplatform/extension/generator/service/ExtensionGeneratorImpl.java:385-387 | the content-list-viewer, view and REST handlers keep their paths; the gadgets handler reports none |
| Generator.TurnAtShaped | service/src/main/java/org/exoplatform/extension/generator/service/ExtensionGeneratorImpl.java:385-387 | each registered handler's turn has the shape its handler guarantees |
| Generator.TurnsShaped | service/src/main/java/org/exoplatform/extension/generator/service/ExtensionGeneratorImpl.java:385-400 | every turn of a generation has the shape its handler guarantees |
| Generator.FixedTurnsKeepPaths | service/src/main/java/org/exoplatform/extension/generator/service/ExtensionGeneratorImpl.java:385-400 | the handlers whose paths never change report after the loop the paths they had before it |
| Generator.GeneratedImportsResolve | service/src/main/java/org/exoplatform/extension/generator/service/ExtensionGeneratorImpl.java:380-414 | every import a modelled handler adds to configuration.xml names a file of the generated WAR |
| Generator.PutEntries | service/src/main/java/org/exoplatform/extension/generator/service/api/Utils.java:265-276 | the archive becomes the old entries with each write put in turn |
| Generator.TakeTurnA | service/src/main/java/org/exoplatform/extension/generator/service/ExtensionGeneratorImpl.java:387 | the handler's writeData leaves the archive, result and paths of its turn, and the node-type handler's order is its sort's result |
| Generator.TakeTurnB | service/src/main/java/org/exoplatform/extension/generator/service/ExtensionGeneratorImpl.java:387 | the handler's writeData leaves the archive, result and paths of its turn |
| Generator.TakeTurnC | service/src/main/java/org/exoplatform/extension/generator/service/ExtensionGeneratorImpl.java:387 | the handler's writeData leaves the archive, result and paths of its turn |
| Generator.TakeOpaqueTurn | service/src/main/java/org/exoplatform/extension/generator/service/ExtensionGeneratorImpl.java:387 | a handler outside this model writes, returns and reports what the platform gives |
| Generator.TakeTurn | service/src/main/java/org/exoplatform/extension/generator/service/ExtensionGeneratorImpl.java:386-399 | any registered handler's writeData applies its turn to the archive and reports its result and paths |
| Generator.AddImports | service/src/main/java/org/exoplatform/extension/generator/service/ExtensionGeneratorImpl.java:392-396 | each configuration path is appended as an import, in order, with the extension name substituted |
| Generator.TakeTurnAt | service/src/main/java/org/exoplatform/extension/generator/service/ExtensionGeneratorImpl.java:386-399 | one pass of the loop extends the assembled WAR and imports by the handler's turn, adding its paths only when writeData returned true |
| Generator.PathsOf | service/src/main/java/org/exoplatform/extension/generator/service/ExtensionGeneratorImpl.java:390 | the configuration paths each handler reports, in order |
| Generator.Advance | service/src/main/java/org/exoplatform/extension/generator/service/ExtensionGeneratorImpl.java:385-400 | one pass keeps the loop invariant: the WAR and imports are what the handlers so far assembled |
| Generator.RunHandlers | service/src/main/java/org/exoplatform/extension/generator/service/ExtensionGeneratorImpl.java:381-400 | a new WAR, then every handler in order, with an exception logged and the next handler run |
| Generator.CloseWar | service/src/main/java/org/exoplatform/extension/generator/service/ExtensionGeneratorImpl.java:402-406 | configuration.xml with the collected imports, then web.xml, close the WAR |
| Generator.Generate | service/src/main/java/org/exoplatform/extension/generator/service/ExtensionGeneratorImpl.java:380-414 | the WAR is War of the handlers' turns, fixed paths are kept, and the node-type order is sorted by dependencies |
| Generator.FilterSelected | service/src/main/java/org/exoplatform/extension/generator/service/ExtensionGeneratorImpl.java:424-432 | exactly the selected paths that contain the parent path (a substring test) |
| Generator.GenerateActivationJar | service/src/main/java/org/exoplatform/extension/generator/service/ExtensionGeneratorImpl.java:441-448 | the activation JAR is conf/configuration.xml from its template, with the name substituted |
| Generator.NewHandler | service/src/main/java/org/exoplatform/extension/generator/service/ExtensionGeneratorImpl.java:118-133 | each handler starts with no temporary file and the configuration paths it declares |
| Generator.PackageWar | service/src/main/java/org/exoplatform/extension/generator/service/ExtensionGeneratorImpl.java:337-348 | the package is the WAR under webapps/, then the activation JAR under lib/ |
| Generator.StartMavenProject | service/src/main/java/org/exoplatform/extension/generator/service/ExtensionGeneratorImpl.java:354-366 | the Maven project starts with the template's files, then the JAR's files below config/src/main/resources |
| Generator.ExtensionGenerator.constructor | service/src/main/java/org/exoplatform/extension/generator/service/ExtensionGeneratorImpl.java:115-134 | the handlers are registered once each, in the fixed order, with their declared paths and no temporary file |
| Generator.ExtensionGenerator.StillValid | service/src/main/java/org/exoplatform/extension/generator/service/ExtensionGeneratorImpl.java:110 | the handler list stays well formed while the fixed handlers keep their paths |
| Generator.ExtensionGenerator.GenerateWar | service/src/main/java/org/exoplatform/extension/generator/service/ExtensionGeneratorImpl.java:380-414 | the WAR is War of every handler's turn, in order, and each handler reports its turn's paths afterwards |
| Generator.ExtensionGenerator.GenerateZip | service/src/main/java/org/exoplatform/extension/generator/service/ExtensionGeneratorImpl.java:337-348 | the package of the generated WAR and the activation JAR |
| Generator.ExtensionGenerator.GenerateMavenProject | service/src/main/java/org/exoplatform/extension/generator/service/ExtensionGeneratorImpl.java:354-372 | the Maven project of the generated WAR and the activation JAR |
| Controller.ExtensionGeneratorController.constructor | portlet/src/main/java/org/exoplatform/extension/generator/portlet/ExtensionGeneratorController.java:70-73 | a new controller has nothing selected and nothing listed |
| Controller.ExtensionGeneratorController.Index | portlet/src/main/java/org/exoplatform/extension/generator/portlet/ExtensionGeneratorController.java:106-130 | the selection is cleared and every category's listing stored, the group sites without the spaces' sites |
| Controller.RemoveSpaceSites | portlet/src/main/java/org/exoplatform/extension/generator/portlet/ExtensionGeneratorController.java:110-118 | the iterator loop keeps exactly the group sites whose path does not contain "/spaces/", in order |
| Controller.WithoutSpacesExactly | portlet/src/main/java/org/exoplatform/extension/generator/portlet/ExtensionGeneratorController.java:110-118 | a site is kept exactly when it was listed and is not a space's site, and never more sites remain |
| Controller.ExtensionGeneratorController.SelectResources | portlet/src/main/java/org/exoplatform/extension/generator/portlet/ExtensionGeneratorController.java:195-216 | the selection becomes Selected of the old one; the listings are unchanged |
| Controller.IgnoredWhenMissing | portlet/src/main/java/org/exoplatform/extension/generator/portlet/ExtensionGeneratorController.java:196 | a missing or empty path or value changes nothing |
| Controller.CategorySelection | portlet/src/main/java/org/exoplatform/extension/generator/portlet/ExtensionGeneratorController.java:197-216 | checking a category adds exactly its children's paths; unchecking removes exactly them |
| Controller.SelectThenDeselect | portlet/src/main/java/org/exoplatform/extension/generator/portlet/ExtensionGeneratorController.java:197-216 | checking then unchecking a plain path that was not selected restores the selection |
| Controller.SelectIdempotent | portlet/src/main/java/org/exoplatform/extension/generator/portlet/ExtensionGeneratorController.java:197-216 | applying the same check twice is applying it once |
| Controller.ExtensionGeneratorController.GetSelectedResources | portlet/src/main/java/org/exoplatform/extension/generator/portlet/ExtensionGeneratorController.java:274-285 | the shown names of the selected paths containing the parent path |
| Controller.CheckedPathShown | portlet/src/main/java/org/exoplatform/extension/generator/portlet/ExtensionGeneratorController.java:274-285 | a checked path parent + "/" + name is shown under its parent as name |
| Controller.ExtensionGeneratorController.ExportExtension | portlet/src/main/java/org/exoplatform/extension/generator/portlet/ExtensionGeneratorController.java:251-266 | "maven" answers the Maven project and "package" the ready-to-deploy archive, both as application/zip named "<name>.zip"; any other type answers status 500 |
| Nodes.CompareZeroIff | service/src/main/java/org/exoplatform/extension/generator/service/api/Node.java:135-137 | String.compareTo is zero exactly for equal strings |
| Nodes.CompareAntisymmetric | service/src/main/java/org/exoplatform/extension/generator/service/api/Node.java:135-137 | swapping the operands of String.compareTo negates it |
| Nodes.CompareTransitive | service/src/main/java/org/exoplatform/extension/generator/service/api/Node.java:135-137 | "not after" in String.compareTo order is transitive |
| Nodes.CompareTotal | service/src/main/java/org/exoplatform/extension/generator/service/api/Node.java:135-137 | any two strings are ordered one way or the other |
| Nodes.Wrap32 | service/src/main/java/org/exoplatform/extension/generator/service/api/Node.java:128 | Java int arithmetic: the result is in the 32-bit range and congruent to the exact value |
| Nodes.StringHash | service/src/main/java/org/exoplatform/extension/generator/service/api/Node.java:128 | String.hashCode is a 32-bit value |
| Nodes.SingleCharHash | service/src/main/java/org/exoplatform/extension/generator/service/api/Node.java:128 | a one-character string hashes to its character code |
| Nodes.Node.constructor | service/src/main/java/org/exoplatform/extension/generator/service/api/Node.java:47-51 | the node stores its text, description and path unchanged |
| Nodes.Node.SetText | service/src/main/java/org/exoplatform/extension/generator/service/api/Node.java:67-69 | setText changes the text and nothing else |
| Nodes.Node.SetDescription | service/src/main/java/org/exoplatform/extension/generator/service/api/Node.java:103-105 | setDescription changes the description and nothing else |
| Nodes.Node.SetPath | service/src/main/java/org/exoplatform/extension/generator/service/api/Node.java:76-78 | setPath changes nothing and returns the path |
| Nodes.Node.CompareTo | service/src/main/java/org/exoplatform/extension/generator/service/api/Node.java:135-137 | nodes compare by text: zero exactly for equal texts, antisymmetric |
| Nodes.Node.HashCode | service/src/main/java/org/exoplatform/extension/generator/service/api/Node.java:127-129 | the hash code is the path's, a 32-bit value |
| Nodes.Node.Equals | service/src/main/java/org/exoplatform/extension/generator/service/api/Node.java:111-121 | null and other objects are unequal; a node equals another node when its text is the other's path, and a string when its text is that string |
| Nodes.HashFollowsPath | service/src/main/java/org/exoplatform/extension/generator/service/api/Node.java:127-129 | nodes with the same path hash alike, whatever their texts |
| Nodes.EqualsSelfIff | service/src/main/java/org/exoplatform/extension/generator/service/api/Node.java:111-121 | as written, a node equals itself only when its text is its path |
| Nodes.EqualsBreaksHashContract | service/src/main/java/org/exoplatform/extension/generator/service/api/Node.java:111-129 | as written, two nodes can be equal yet hash differently |
| Nodes.EqualsNotSymmetric | service/src/main/java/org/exoplatform/extension/generator/service/api/Node.java:111-121 | as written, equality is not symmetric |
| Nodes.Node.EqualsByPath | service/src/main/java/org/exoplatform/extension/generator/service/api/Node.java:111-121 | the corrected equality compares a node's path with the other node's path, and is otherwise unchanged |
| Nodes.EqualsByPathConsistent | service/src/main/java/org/exoplatform/extension/generator/service/api/Node.java:111-129 | the corrected equality is reflexive, symmetric and consistent with hashCode |
| ExtensionName.RunEnd | portlet/src/main/webapp/js/extensiongenerator/extensiongenerator.js:110 | a greedy starred class stops at the first character outside it, or at the end |
| ExtensionName.RunReaches | portlet/src/main/webapp/js/extensiongenerator/extensiongenerator.js:110-111 | a greedy run reaches at least as far as any stretch of its class |
| ExtensionName.MatchedInLanguage | portlet/src/main/webapp/js/extensiongenerator/extensiongenerator.js:110-112 | a name the match covers is letters, then joiners, then letters |
| ExtensionName.LanguageMatched | portlet/src/main/webapp/js/extensiongenerator/extensiongenerator.js:110-112 | a name of that form is covered by the match |
| ExtensionName.MatchIffLanguage | portlet/src/main/webapp/js/extensiongenerator/extensiongenerator.js:110-112 | the match covers the whole name exactly when the name is letters, joiners, letters |
| ExtensionName.AcceptedAlphabet | portlet/src/main/webapp/js/extensiongenerator/extensiongenerator.js:106-115 | an accepted name holds only letters, '|', '-' and '_' |
| ExtensionName.Refused | portlet/src/main/webapp/js/extensiongenerator/extensiongenerator.js:106-115 | a missing or empty name, or one holding a digit, '.', '/', '$' or a space, is refused |

## Left out

- Real ZIP encoding, temporary files on disk, ClosableFileInputStream and stream closing are I/O. An archive is a sequence of named entries, and the temporary-file registry is a list of names.
- The management controller, the JCR session and node-type manager, the gadget registry, the Groovy REST loader, PortalContainer lookups and the JiBX/XStream (un)marshallers are foreign code. They are the function values of `Platform.Services`, and the rendering of a kernel configuration is kept as the document plus the names substituted into it.
- The `[A-z]` field-stripping pattern in toXML, and toXML/fromXML themselves, are inside the marshaller and are not modelled.
- Regular-expression semantics of replaceAll, replaceFirst and split are not modelled. Every pattern the core uses is literal path text, and all three are modelled as literal operations. For the gadget parent path passed to replaceFirst this is an assumption: a path holding regex metacharacters would behave differently.
- Java's HashSet and HashMap iteration order is unspecified. A selection is a sequence in the order the set hands it out, and the site-contents maps iterate in insertion order.
- Logging, the Juzu template rendering with its `parameters` map, the DOM checkbox handling, and the `synchronized` selection set are left out; the model is single-threaded.
- The JCR query, taxonomy and Site Explorer templates handlers are registered, but their source is not part of this model. Their turn (writes, result, configuration paths) is a platform parameter, and the import-resolution lemmas speak only of the modelled handlers.
- The action node-type handler is modelled on its own but not registered, as in the constructor.
- ConfigurationHandler and ExtensionGenerator hold only declarations and constants. The handlers are one class tagged with their kind, and the orchestrator dispatches on the kind.
- Configuration records (ComponentPlugin, ExternalComponentPlugins, InitParams and the others) are values. Where the source attaches a list to a record and fills it afterwards, the model builds the filled record, which gives the same result.
- The constructor's handler list is built by a loop over the registered kinds in their fixed order, one `NewHandler` call per kind. It does not repeat the seventeen statements.
- I/O failures of the generator itself are not modelled: creating a temporary file, reading a class-path template, or closing the archive. The only write failure modelled is the archive's refusal of a duplicate entry name. The raw entry writer swallows it; writeConfiguration reports it as false.
- NodeTypeHandler.WriteData: requires an acyclic supertype relation whose supertypes are all known, and distinct discovered types. The source's sort never ends on a cycle, and it is not modelled on duplicates.
- Generator.ExtensionGenerator.GenerateWar: requires the same of the platform through `Ready`, and non-empty site-contents separator and version-history suffix constants.
- Controller.ExtensionGeneratorController.ExportExtension: answers 500 only for an unknown archive type. A generator exception is I/O and is not modelled.
- Controller.ExtensionGeneratorController.Index: takes each category's listing as a parameter. An exception from a failed listing is not modelled there; `Listing.GetNodes` models it as None.
- Listing.PredefinedScriptsExactly: the two loader components' external and own plugins are given as one plugin list. The class and component lookups are not modelled.
- Nodes.StringHash: hashes the string's characters as code points, where Java hashes UTF-16 code units. They differ only for characters outside the Basic Multilingual Plane.
- Nodes.CompareStrings: compares code points, where String.compareTo compares UTF-16 code units. The sign differs when a character outside the Basic Multilingual Plane meets one in U+E000..U+FFFF at the first difference (U+10000 against U+E000), and lengths count such characters once rather than twice.
- Nodes.Node.CompareTo: inherits that difference from Nodes.CompareStrings.
- Listing.SortByName: orders by Nodes.CompareStrings, so it inherits the same difference from Collections.sort's order.
- Listing.GetRestServices: the repository lookup and its workspace names are taken to succeed; a failure there would be caught and give an empty listing. A failing list call or cast for one workspace is modelled.
- Listing.GetGadgets: a gadget's URL is never null. A non-local gadget with a null URL would throw at the "jcr/repository" test, and the catch would keep only the gadgets listed before it. A throwing getAllGadgets is modelled.
- ExtensionName: models only the name check of exportProject (extensiongenerator.js lines 106-115). The radio-button value and the URL it builds are UI.

## Findings

| source | as written | input that shows it | evidently intended | confidence | as-written member | corrected member |
|---|---|---|---|---|---|---|
| service/src/main/java/org/exoplatform/extension/generator/service/ExtensionGeneratorImpl.java:465-466 | getNodes sizes the new list with result.getChildren().size() before testing result.getChildren() for null | a read-resource result whose children set is null: the sizing throws, so the else branch that lists the resource itself is never reached for it | test for null before sizing, so a null children set lists the resource itself like an empty one | not executed | Listing.ResourceNodes (shown by Listing.NullChildrenThrow) | Listing.GuardedResourceNodes (proved by Listing.GuardedResourceNodesFacts) |
| service/src/main/java/org/exoplatform/extension/generator/service/api/Node.java:111-121 | equals compares this node's text with the other node's path | node a with text "b" and path "a", node b with path "b": a.equals(b) holds, yet their hash codes are 97 and 98, and b does not equal a | equality by path, consistent with hashCode, which hashes the path | not executed | Nodes.Node.Equals (shown by Nodes.EqualsBreaksHashContract and Nodes.EqualsNotSymmetric) | Nodes.Node.EqualsByPath (proved by Nodes.EqualsByPathConsistent) |
