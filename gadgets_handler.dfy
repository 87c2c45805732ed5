/**
 * The gadgets handler (GadgetsConfigurationHandler): for each selected
 * gadget, finds its XML file in the JCR from the gadget's URL, copies every
 * file of the gadget's folder under "gadgets/", and lists the gadget in a
 * hand-written WEB-INF/gadget.xml. It declares no configuration import.
 */
module GadgetsHandler {
  import opened Wrappers
  import opened Strings
  import opened Archive
  import opened Paths
  import opened Platform
  import opened Utils
  import opened HandlerBase

  /** GADGETS_LOCATION: the directory the gadget files are copied under. */
  const GadgetsLocation := "gadgets"

  /** GADGETS_CONFIGURATION_PATH */
  const GadgetsConfigurationPath := "WEB-INF/gadget.xml"

  /** getConfigurationPaths: always empty. */
  const ConfigurationPaths: seq<string> := []

  /** The constructor. */
  method NewGadgetsHandler() returns (h: Handler)
    ensures fresh(h)
    ensures h.kind == Gadgets && h.tempFiles == [] && h.configurationPaths == []
  {
    h := new Handler(Gadgets, ConfigurationPaths);
  }

  // -------------------------------------------------------------------------
  // The gadget.xml text.

  /** The XML declaration and the opening <gadgets> element. */
  const Header :=
    "<?xml version=\"1.0\" encoding=\"UTF-8\"?>\r\n" +
    "<gadgets\r\n\txmlns:xsi=\"http://www.w3.org/2001/XMLSchema-instance\"\r\n" +
    "\txsi:schemaLocation=\"http://www.gatein.org/xml/ns/gatein_objects_1_0 http://www.gatein.org/xml/ns/gadgets_1_0\"\r\n" +
    "\txmlns=\"http://www.gatein.org/xml/ns/gadgets_1_0\">\r\n"

  const Footer := "</gadgets>"

  /** The comment left in place of a gadget whose folder is the workspace root. */
  function RootComment(name: string): string {
    "\r\n\r\n\t<!-- Gadget '" + name +
    "' is not exported. Please add it in a separate folder, not under '/' (root folder of the workspace). -->\r\n\r\n"
  }

  /** The <gadget> element of an exported gadget: its name and the path of its XML file. */
  function GadgetElement(name: string, xmlPath: string): string {
    " <gadget name=\"" + name + "\">" + "\r\n   <path>/" + xmlPath + "</path>\r\n" + " </gadget>\r\n"
  }

  // -------------------------------------------------------------------------
  // Locating a gadget.

  /**
   * The workspace and path of a gadget's file, from its URL: the text after
   * the repository name and one more character; the workspace is up to the
   * first '/', and the path is that text with every occurrence of the
   * workspace removed. None where a substring bound is out of range.
   */
  function SplitUrl(url: string, repository: string): Option<(string, string)> {
    var start := IndexOf(url, repository) + |repository| + 1;
    if start > |url| then None
    else
      var rest := url[start..];
      var slash := IndexOf(rest, "/");
      if slash < 0 then None
      else
        var workspace := rest[..slash];
        Some((workspace, if workspace == [] then rest else ReplaceAll(rest, workspace, "")))
  }

  /**
   * A URL "<prefix><repository>/<workspace>/<rest>" whose first occurrence of
   * the repository name ends the prefix names that workspace and the path
   * "/<rest>", provided the workspace name is a single segment that does
   * not occur again in the path.
   */
  lemma UrlSplit(prefix: string, repository: string, workspace: string, rest: string)
    requires IndexOf(prefix + repository + "/" + workspace + "/" + rest, repository) == |prefix|
    requires workspace != [] && '/' !in workspace && !Contains("/" + rest, workspace)
    ensures SplitUrl(prefix + repository + "/" + workspace + "/" + rest, repository) == Some((workspace, "/" + rest))
  {
    var url := prefix + repository + "/" + workspace + "/" + rest;
    var after := workspace + ("/" + rest);
    assert url == (prefix + repository + "/") + after;
    assert url[|prefix| + |repository| + 1..] == after;
    FirstSlash(workspace, rest);
    WorkspaceRemoved(workspace, rest);
  }

  /** In "<workspace>/<rest>", the first '/' ends a workspace name without one. */
  lemma FirstSlash(workspace: string, rest: string)
    requires '/' !in workspace
    ensures IndexOf(workspace + ("/" + rest), "/") == |workspace|
    ensures (workspace + ("/" + rest))[..|workspace|] == workspace
  {
    var after := workspace + ("/" + rest);
    assert OccursAt(after, "/", |workspace|);
    forall i: nat | i < |workspace| ensures !OccursAt(after, "/", i) {
      assert after[i] == workspace[i];
    }
  }

  /** Removing the workspace name from "<workspace>/<rest>" leaves "/<rest>" when the name does not occur again. */
  lemma WorkspaceRemoved(workspace: string, rest: string)
    requires workspace != [] && !Contains("/" + rest, workspace)
    ensures ReplaceAll(workspace + ("/" + rest), workspace, "") == "/" + rest
  {
    ReplaceLeading(workspace, "/" + rest, "");
    ReplaceAbsent("/" + rest, workspace, "");
  }

  // -------------------------------------------------------------------------
  // Copying a gadget's folder (writeFileNode).

  /**
   * Where a file of the gadget is copied: the grand-parent's path replaced,
   * once, by the gadget's name, under "gadgets/", then one pass of "//" to "/".
   */
  function GadgetFilePath(path: string, parentPath: string, name: string): string {
    ReplaceAll(GadgetsLocation + "/" + ReplaceFirst(path, parentPath, name), "//", "/")
  }

  /** The archive entry a gadget file becomes: its bytes at the stream writer's name for its copy path. */
  function FileCopy(ext: string, parentPath: string, name: string, path: string, content: Content): Entry {
    Entry(StreamEntryName(GadgetFilePath(path, parentPath, name), ext), content)
  }

  /**
   * The entries writeFileNode writes for the first k children of a folder:
   * each file child is copied, each folder child is walked in turn, and
   * anything else is passed over.
   */
  function FolderWrites(ext: string, parentPath: string, name: string, folder: JcrNode, k: nat): seq<Entry>
    requires folder.FolderNode? && k <= |folder.children|
    decreases folder, k
  {
    if k == 0 then []
    else
      var child := folder.children[k - 1];
      FolderWrites(ext, parentPath, name, folder, k - 1) +
        match child
        case FileNode(path, content) => [FileCopy(ext, parentPath, name, path, content)]
        case FolderNode(_, children) => FolderWrites(ext, parentPath, name, child, |children|)
        case OtherNode(_) => []
  }

  /** Every entry writeFileNode writes for a folder. */
  function TreeWrites(ext: string, parentPath: string, name: string, folder: JcrNode): seq<Entry>
    requires folder.FolderNode?
  {
    FolderWrites(ext, parentPath, name, folder, |folder.children|)
  }

  /** A file with this path and content is reachable from the folder through folders only. */
  ghost predicate FileWithin(folder: JcrNode, path: string, content: Content)
    decreases folder
  {
    folder.FolderNode? &&
    exists i :: 0 <= i < |folder.children| &&
      (folder.children[i] == FileNode(path, content) || FileWithin(folder.children[i], path, content))
  }

  /** The same, among the first k children only. */
  ghost predicate FileWithinFirst(folder: JcrNode, k: nat, path: string, content: Content)
    requires folder.FolderNode? && k <= |folder.children|
  {
    exists i :: 0 <= i < k &&
      (folder.children[i] == FileNode(path, content) || FileWithin(folder.children[i], path, content))
  }

  /** Every entry written for the first k children is the copy of a file reachable among them. */
  lemma {:induction false} FolderWritesSound(ext: string, parentPath: string, name: string, folder: JcrNode, k: nat, e: Entry)
    requires folder.FolderNode? && k <= |folder.children|
    requires e in FolderWrites(ext, parentPath, name, folder, k)
    ensures exists path, content :: e == FileCopy(ext, parentPath, name, path, content) && FileWithinFirst(folder, k, path, content)
    decreases folder, k
  {
    var child := folder.children[k - 1];
    if e in FolderWrites(ext, parentPath, name, folder, k - 1) {
      FolderWritesSound(ext, parentPath, name, folder, k - 1, e);
      var path, content :| e == FileCopy(ext, parentPath, name, path, content) && FileWithinFirst(folder, k - 1, path, content);
      var i :| 0 <= i < k - 1 &&
        (folder.children[i] == FileNode(path, content) || FileWithin(folder.children[i], path, content));
      assert FileWithinFirst(folder, k, path, content);
    } else {
      match child
      case FileNode(path, content) =>
        assert FileWithinFirst(folder, k, path, content) by {
          assert folder.children[k - 1] == FileNode(path, content);
        }
      case FolderNode(_, _) =>
        FolderWritesSound(ext, parentPath, name, child, |child.children|, e);
        var path, content :| e == FileCopy(ext, parentPath, name, path, content) && FileWithinFirst(child, |child.children|, path, content);
        assert FileWithin(child, path, content);
        assert FileWithinFirst(folder, k, path, content) by {
          assert FileWithin(folder.children[k - 1], path, content);
        }
    }
  }

  /** Every file reachable among the first k children is copied. */
  lemma {:induction false} FolderWritesComplete(ext: string, parentPath: string, name: string, folder: JcrNode, k: nat, path: string, content: Content)
    requires folder.FolderNode? && k <= |folder.children|
    requires FileWithinFirst(folder, k, path, content)
    ensures FileCopy(ext, parentPath, name, path, content) in FolderWrites(ext, parentPath, name, folder, k)
    decreases folder, k
  {
    var e := FileCopy(ext, parentPath, name, path, content);
    var child := folder.children[k - 1];
    var i :| 0 <= i < k &&
      (folder.children[i] == FileNode(path, content) || FileWithin(folder.children[i], path, content));
    var before := FolderWrites(ext, parentPath, name, folder, k - 1);
    if i < k - 1 {
      assert FileWithinFirst(folder, k - 1, path, content);
      FolderWritesComplete(ext, parentPath, name, folder, k - 1, path, content);
      assert e in before;
    } else if child == FileNode(path, content) {
      assert FolderWrites(ext, parentPath, name, folder, k) == before + [e];
    } else {
      assert FileWithin(child, path, content);
      var j :| 0 <= j < |child.children| &&
        (child.children[j] == FileNode(path, content) || FileWithin(child.children[j], path, content));
      assert FileWithinFirst(child, |child.children|, path, content);
      FolderWritesComplete(ext, parentPath, name, child, |child.children|, path, content);
      assert FolderWrites(ext, parentPath, name, folder, k) == before + TreeWrites(ext, parentPath, name, child);
    }
  }

  /** The copies of a folder are exactly the copies of the files reachable from it through folders. */
  lemma TreeWritesExactly(ext: string, parentPath: string, name: string, folder: JcrNode, e: Entry)
    requires folder.FolderNode?
    ensures e in TreeWrites(ext, parentPath, name, folder) <==>
      exists path, content :: e == FileCopy(ext, parentPath, name, path, content) && FileWithin(folder, path, content)
  {
    var n := |folder.children|;
    if e in TreeWrites(ext, parentPath, name, folder) {
      FolderWritesSound(ext, parentPath, name, folder, n, e);
      var path, content :| e == FileCopy(ext, parentPath, name, path, content) && FileWithinFirst(folder, n, path, content);
      assert FileWithin(folder, path, content);
    }
    if exists path, content :: e == FileCopy(ext, parentPath, name, path, content) && FileWithin(folder, path, content) {
      var path, content :| e == FileCopy(ext, parentPath, name, path, content) && FileWithin(folder, path, content);
      FolderWritesComplete(ext, parentPath, name, folder, n, path, content);
    }
  }

  /**
   * A file below the grand-parent is copied under "gadgets/<name>" followed
   * by the rest of its path, when the grand-parent's path first occurs at
   * the head of the file's.
   */
  lemma GadgetFilePathOfDescendant(parentPath: string, rest: string, name: string)
    requires IndexOf(parentPath + rest, parentPath) == 0
    ensures GadgetFilePath(parentPath + rest, parentPath, name) == ReplaceAll(GadgetsLocation + "/" + name + rest, "//", "/")
  {
    var path := parentPath + rest;
    assert path[..0] == [] && path[|parentPath|..] == rest;
    assert ReplaceFirst(path, parentPath, name) == name + rest;
    assert GadgetsLocation + "/" + (name + rest) == GadgetsLocation + "/" + name + rest;
  }

  /** writeFileNode */
  method WriteFileNode(zos: ZipOutput, folder: JcrNode, parentPath: string, ext: string, name: string)
    requires zos.Valid() && folder.FolderNode?
    modifies zos
    ensures zos.Valid()
    ensures zos.entries == PutAll(old(zos.entries), TreeWrites(ext, parentPath, name, folder))
    decreases folder
  {
    var i := 0;
    while i < |folder.children|
      invariant 0 <= i <= |folder.children|
      invariant zos.Valid()
      invariant zos.entries == PutAll(old(zos.entries), FolderWrites(ext, parentPath, name, folder, i))
    {
      var node := folder.children[i];
      var before := FolderWrites(ext, parentPath, name, folder, i);
      match node {
        case FileNode(path, content) =>
          var filePath := ReplaceAll(GadgetsLocation + "/" + ReplaceFirst(path, parentPath, name), "//", "/");
          assert FolderWrites(ext, parentPath, name, folder, i + 1) == before + [FileCopy(ext, parentPath, name, path, content)];
          PutAllSnoc(old(zos.entries), before, FileCopy(ext, parentPath, name, path, content));
          WriteStream(zos, filePath, ext, content, false);
          assert zos.entries == PutAll(old(zos.entries), FolderWrites(ext, parentPath, name, folder, i + 1));
        case FolderNode(_, _) =>
          assert FolderWrites(ext, parentPath, name, folder, i + 1) == before + TreeWrites(ext, parentPath, name, node);
          PutAllAppend(old(zos.entries), before, TreeWrites(ext, parentPath, name, node));
          WriteFileNode(zos, node, parentPath, ext, name);
          assert zos.entries == PutAll(old(zos.entries), FolderWrites(ext, parentPath, name, folder, i + 1));
        case OtherNode(_) =>
          assert FolderWrites(ext, parentPath, name, folder, i + 1) == before + [];
          assert before + [] == before;
          assert zos.entries == PutAll(old(zos.entries), FolderWrites(ext, parentPath, name, folder, i + 1));
      }
      i := i + 1;
    }
  }

  // -------------------------------------------------------------------------
  // One gadget.

  /** What handling one selected gadget gives: an exception, or the entries written and the text appended. */
  datatype GadgetExport = Failed | Handled(writes: seq<Entry>, text: string)

  /** The name a selected path designates: the path with every GADGET_PATH removed. */
  function SelectedGadgetName(selected: string): string {
    ReplaceAll(selected, GadgetPath, "")
  }

  /**
   * One iteration of the gadget loop. An unknown gadget, a URL that cannot
   * be cut, a workspace the repository does not have, or a lookup that
   * throws is an exception. A missing item, an item that is not a file, a
   * parent that is the workspace root (with a comment left in the text) or
   * a parent that is not a folder is skipped. Otherwise the parent folder is
   * copied and one <gadget> element appended.
   */
  function GadgetExportOf(svc: Services, ext: string, selected: string): GadgetExport {
    var gadget := svc.gadgetNamed(SelectedGadgetName(selected));
    if gadget.None? then Failed
    else
      var name := gadget.value.name;
      var split := SplitUrl(gadget.value.url, svc.repositoryName);
      if split.None? || split.value.0 !in svc.workspaces then Failed
      else FoundExport(ext, name, svc.gadgetFile(split.value.0, split.value.1))
  }

  /** The rest of the iteration, once the lookup of the gadget's file has answered. */
  function FoundExport(ext: string, name: string, found: GadgetFile): GadgetExport {
    match found
    case LookupFailed => Failed
    case NoItem => Handled([], [])
    case NotAFile => Handled([], [])
    case GadgetXml(filePath, parent, grandParentPath) =>
      if parent.path == "/" then Handled([], RootComment(name))
      else if !parent.FolderNode? then Handled([], [])
      else
        Handled(TreeWrites(ext, grandParentPath, name, parent),
          GadgetElement(name, GadgetFilePath(filePath, grandParentPath, name)))
  }

  /**
   * A gadget whose file is found, in a folder that is not the workspace
   * root, has its folder copied and is listed by the path of its XML file;
   * when that file sits in the folder, its copy is among the entries
   * written, at the stream writer's name for the listed path.
   */
  lemma ListedGadgetCopied(svc: Services, ext: string, selected: string, filePath: string, parent: JcrNode, grandParentPath: string, content: Content)
    requires var gadget := svc.gadgetNamed(SelectedGadgetName(selected));
      gadget.Some? &&
      var split := SplitUrl(gadget.value.url, svc.repositoryName);
      split.Some? && split.value.0 in svc.workspaces &&
      svc.gadgetFile(split.value.0, split.value.1) == GadgetXml(filePath, parent, grandParentPath)
    requires parent.FolderNode? && parent.path != "/" && FileNode(filePath, content) in parent.children
    ensures var name := svc.gadgetNamed(SelectedGadgetName(selected)).value.name;
      var r := GadgetExportOf(svc, ext, selected);
      var listed := GadgetFilePath(filePath, grandParentPath, name);
      r == Handled(TreeWrites(ext, grandParentPath, name, parent), GadgetElement(name, listed)) &&
      Entry(StreamEntryName(listed, ext), content) in r.writes
  {
    var name := svc.gadgetNamed(SelectedGadgetName(selected)).value.name;
    var e := FileCopy(ext, grandParentPath, name, filePath, content);
    var i :| 0 <= i < |parent.children| && parent.children[i] == FileNode(filePath, content);
    assert FileWithin(parent, filePath, content);
    TreeWritesExactly(ext, grandParentPath, name, parent, e);
  }

  /**
   * The gadget's outcome by case: an exception exactly on an unknown gadget,
   * an uncuttable URL, an unknown workspace or a failed lookup; nothing is
   * written unless the gadget's parent is a folder other than the root; a
   * root parent leaves only its comment.
   */
  lemma GadgetCases(svc: Services, ext: string, selected: string)
    ensures var gadget := svc.gadgetNamed(SelectedGadgetName(selected));
      var r := GadgetExportOf(svc, ext, selected);
      (r.Failed? <==>
        (gadget.None? ||
         var split := SplitUrl(gadget.value.url, svc.repositoryName);
         split.None? || split.value.0 !in svc.workspaces ||
         svc.gadgetFile(split.value.0, split.value.1).LookupFailed?)) &&
      (r.Handled? ==>
        var split := SplitUrl(gadget.value.url, svc.repositoryName).value;
        var found := svc.gadgetFile(split.0, split.1);
        (found.GadgetXml? && found.parent.path == "/" ==> r.text == RootComment(gadget.value.name)) &&
        (r.writes != [] ==> found.GadgetXml? && found.parent.FolderNode? && found.parent.path != "/") &&
        (!found.GadgetXml? ==> r == Handled([], [])))
  {
    // The cases turn on the lookups alone, not on what is written.
    hide TreeWrites, GadgetElement, GadgetFilePath, RootComment, SelectedGadgetName, SplitUrl;
  }

  // -------------------------------------------------------------------------
  // The gadget loop and the run.

  /** The loop's state: the entries written, the text so far, and whether an exception ended the loop. */
  datatype Scan = Scan(writes: seq<Entry>, text: string, failed: bool)

  /** The state the gadget loop starts from. */
  const Start := Scan([], Header, false)

  /** One iteration, given what handling its gadget gave; after an exception nothing more happens. */
  function ScanStep(s: Scan, r: GadgetExport): Scan {
    if s.failed then s
    else
      match r
      case Failed => s.(failed := true)
      case Handled(writes, text) => Scan(s.writes + writes, s.text + text, false)
  }

  /** The loop over what handling each gadget gave, in order. */
  function ScanAll(rs: seq<GadgetExport>): Scan
    decreases |rs|
  {
    if rs == [] then Start
    else ScanStep(ScanAll(rs[..|rs| - 1]), rs[|rs| - 1])
  }

  /** What handling each selected gadget gives, in order. */
  function ExportsOf(svc: Services, ext: string, selected: seq<string>): (rs: seq<GadgetExport>)
    ensures |rs| == |selected| && forall i :: 0 <= i < |selected| ==> rs[i] == GadgetExportOf(svc, ext, selected[i])
  {
    seq(|selected|, i requires 0 <= i < |selected| => GadgetExportOf(svc, ext, selected[i]))
  }

  /** Once a gadget has thrown, the gadgets after it change nothing. */
  lemma {:induction false} FailureSticks(rs: seq<GadgetExport>, more: seq<GadgetExport>)
    requires ScanAll(rs).failed
    ensures ScanAll(rs + more) == ScanAll(rs)
    decreases |more|
  {
    if more == [] {
      assert rs + more == rs;
    } else {
      var init := more[..|more| - 1];
      FailureSticks(rs, init);
      assert (rs + more)[..|rs + more| - 1] == rs + init;
    }
  }

  /** The text always starts with the header. */
  lemma {:induction false} ScanStartsWithHeader(rs: seq<GadgetExport>)
    ensures Header <= ScanAll(rs).text
    decreases |rs|
  {
    if rs != [] {
      ScanStartsWithHeader(rs[..|rs| - 1]);
    }
  }

  /** The loop ends in an exception exactly when one of the gadgets throws. */
  lemma {:induction false} ScanFailsIff(rs: seq<GadgetExport>)
    ensures ScanAll(rs).failed <==> exists i :: 0 <= i < |rs| && rs[i].Failed?
    decreases |rs|
  {
    if rs != [] {
      var init := rs[..|rs| - 1];
      ScanFailsIff(init);
      if exists i :: 0 <= i < |rs| && rs[i].Failed? {
        var i :| 0 <= i < |rs| && rs[i].Failed?;
        if i < |init| {
          assert init[i] == rs[i];
        }
      }
      if exists i :: 0 <= i < |init| && init[i].Failed? {
        var i :| 0 <= i < |init| && init[i].Failed?;
        assert rs[i] == init[i];
      }
    }
  }

  /** The gadget.xml entry: the text closed, the name substituted, the bytes unchanged. */
  function GadgetsXmlEntry(ext: string, text: string): Entry {
    Entry(WrittenName(GadgetsConfigurationPath, ext), Text(text + Footer))
  }

  /**
   * writeData: nothing is done for an empty selection; an exception returns
   * false after what was already copied; otherwise gadget.xml is written
   * last and true is returned, whatever the writer did with it.
   */
  function GadgetsRun(svc: Services, ext: string, selection: seq<string>): Run {
    var filtered := Filtered(selection, GadgetPath);
    if filtered == [] then Declined
    else
      var s := ScanAll(ExportsOf(svc, ext, filtered));
      if s.failed then Run(s.writes, Done(Returned(false)))
      else Run(s.writes + [GadgetsXmlEntry(ext, s.text)], Done(Returned(true)))
  }

  /**
   * An empty selection declines; otherwise the run returns true exactly
   * when no gadget throws, and false otherwise.
   */
  lemma RunOutcomes(svc: Services, ext: string, selection: seq<string>)
    ensures var filtered := Filtered(selection, GadgetPath);
      var run := GadgetsRun(svc, ext, selection);
      (filtered == [] ==> run == Declined) &&
      var rs := ExportsOf(svc, ext, filtered);
      (run.finish == Done(Returned(true)) <==> filtered != [] && forall i :: 0 <= i < |rs| ==> rs[i].Handled?) &&
      (run.finish != Done(Returned(true)) ==> run.finish == Done(Returned(false)))
  {
    ScanFailsIff(ExportsOf(svc, ext, Filtered(selection, GadgetPath)));
  }

  /** The gadget.xml text of a loop that did not throw opens with the header and closes the <gadgets> element. */
  lemma XmlTextShape(rs: seq<GadgetExport>)
    ensures var text := GadgetsXmlEntry("", ScanAll(rs).text).content.text;
      Header <= text && EndsWith(text, Footer)
  {
    ScanStartsWithHeader(rs);
    var text := ScanAll(rs).text + Footer;
    assert text[|text| - |Footer|..] == Footer;
    assert text[..|Header|] == ScanAll(rs).text[..|Header|];
  }

  /** A run that returns true writes gadget.xml last; its text opens with the header and closes the <gadgets> element. */
  lemma GadgetsXmlLast(svc: Services, ext: string, selection: seq<string>)
    requires GadgetsRun(svc, ext, selection).finish == Done(Returned(true))
    ensures var run := GadgetsRun(svc, ext, selection);
      run.writes != [] && run.writes[|run.writes| - 1].name == WrittenName(GadgetsConfigurationPath, ext) &&
      run.writes[|run.writes| - 1].content.Text? &&
      var text := run.writes[|run.writes| - 1].content.text;
      Header <= text && EndsWith(text, Footer)
  {
    var rs := ExportsOf(svc, ext, Filtered(selection, GadgetPath));
    XmlTextShape(rs);
    var run := GadgetsRun(svc, ext, selection);
    assert run.writes == ScanAll(rs).writes + [GadgetsXmlEntry(ext, ScanAll(rs).text)];
  }

  /** One gadget: its folder copied and its text returned, or ok false after writing nothing. */
  method ExportGadget(zos: ZipOutput, svc: Services, ext: string, selected: string) returns (text: string, ok: bool)
    requires zos.Valid()
    modifies zos
    ensures zos.Valid()
    ensures ok <==> GadgetExportOf(svc, ext, selected).Handled?
    ensures ok ==> (text == GadgetExportOf(svc, ext, selected).text &&
      zos.entries == PutAll(old(zos.entries), GadgetExportOf(svc, ext, selected).writes))
    ensures !ok ==> zos.entries == old(zos.entries)
  {
    var gadget := svc.gadgetNamed(SelectedGadgetName(selected));
    if gadget.None? {
      return [], false;
    }
    var split := SplitUrl(gadget.value.url, svc.repositoryName);
    if split.None? || split.value.0 !in svc.workspaces {
      return [], false;
    }
    text, ok := ExportFound(zos, ext, gadget.value.name, svc.gadgetFile(split.value.0, split.value.1));
  }

  /** The skip rules, then the folder copy and the gadget's element. */
  method ExportFound(zos: ZipOutput, ext: string, name: string, found: GadgetFile) returns (text: string, ok: bool)
    requires zos.Valid()
    modifies zos
    ensures zos.Valid()
    ensures ok <==> FoundExport(ext, name, found).Handled?
    ensures ok ==> (text == FoundExport(ext, name, found).text &&
      zos.entries == PutAll(old(zos.entries), FoundExport(ext, name, found).writes))
    ensures !ok ==> zos.entries == old(zos.entries)
  {
    text := [];
    match found {
      case LookupFailed =>
        return text, false;
      case NoItem =>
      case NotAFile =>
      case GadgetXml(filePath, parent, grandParentPath) =>
        if parent.path == "/" {
          text := RootComment(name);
        } else if parent.FolderNode? {
          WriteFileNode(zos, parent, grandParentPath, ext, name);
          var xmlPath := GadgetsLocation + "/" + ReplaceFirst(filePath, grandParentPath, name);
          xmlPath := ReplaceAll(xmlPath, "//", "/");
          text := GadgetElement(name, xmlPath);
        }
    }
    ok := true;
  }

  /** writeData */
  method WriteData(zos: ZipOutput, svc: Services, ext: string, selection: seq<string>) returns (outcome: Outcome)
    requires zos.Valid()
    modifies zos
    ensures zos.Valid()
    ensures zos.entries == Apply(old(zos.entries), ext, GadgetsRun(svc, ext, selection))
    ensures outcome == ResultOf(old(zos.entries), ext, GadgetsRun(svc, ext, selection))
  {
    var filtered := FilterSelectedResources(selection, GadgetPath);
    if filtered == [] {
      DeclinedLeavesArchive(zos.entries, ext);
      return Returned(false);
    }
    ghost var rs := ExportsOf(svc, ext, filtered);
    var text := Header;
    for j := 0 to |filtered|
      invariant zos.Valid()
      invariant !ScanAll(rs[..j]).failed
      invariant text == ScanAll(rs[..j]).text
      invariant zos.entries == PutAll(old(zos.entries), ScanAll(rs[..j]).writes)
    {
      ghost var s := ScanAll(rs[..j]);
      assert rs[..j + 1][..j] == rs[..j];
      var more, ok := ExportGadget(zos, svc, ext, filtered[j]);
      if !ok {
        assert rs[..j + 1] + rs[j + 1..] == rs;
        FailureSticks(rs[..j + 1], rs[j + 1..]);
        return Returned(false);
      }
      PutAllAppend(old(zos.entries), s.writes, rs[j].writes);
      text := text + more;
    }
    assert rs[..|rs|] == rs;
    ghost var s := ScanAll(rs);
    PutAllSnoc(old(zos.entries), s.writes, GadgetsXmlEntry(ext, text));
    text := text + Footer;
    WriteString(zos, GadgetsConfigurationPath, ext, Text(text), false);
    outcome := Returned(true);
  }
}
