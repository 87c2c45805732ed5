/**
 * The portlet controller (ExtensionGeneratorController): the session's set
 * of selected resource paths, the listing of each category of resources,
 * the check-box handler that selects or deselects a path or a whole
 * category, the per-category view of the selection, and the export action
 * that hands the selection to the generator.
 */
module Controller {
  import opened Wrappers
  import opened Strings
  import opened Archive
  import opened Paths
  import opened Platform
  import opened Nodes
  import opened WarAssembly
  import opened Generator

  /** The paths of a category's nodes. */
  function ChildPaths(nodes: seq<Node>): set<string> {
    set n | n in nodes :: n.path
  }

  /**
   * selectResources: with a missing or empty path or value nothing changes;
   * the value "true" adds the path, or every child path when the path names
   * a listed category; any other value removes them.
   */
  function Selected(selected: set<string>, resources: map<string, seq<Node>>, path: Option<string>, checked: Option<string>): set<string> {
    if checked.None? || path.None? || checked.value == [] || path.value == [] then selected
    else if checked.value == "true" then
      (if path.value in resources then selected + ChildPaths(resources[path.value]) else selected + {path.value})
    else
      (if path.value in resources then selected - ChildPaths(resources[path.value]) else selected - {path.value})
  }

  /** A group site's node is hidden when its path contains "/spaces/". */
  predicate SpaceSite(n: Node) {
    Contains(n.path, "/spaces/")
  }

  /** The group sites index keeps: all but the spaces' sites, in order. */
  function WithoutSpaces(sites: seq<Node>): seq<Node>
    decreases |sites|
  {
    if sites == [] then []
    else WithoutSpaces(sites[..|sites| - 1]) + (if SpaceSite(sites[|sites| - 1]) then [] else [sites[|sites| - 1]])
  }

  /** What getSelectedResources shows for one selected path: the parent path removed everywhere, then one leading '/'. */
  function ShownName(resource: string, parentPath: string): string
    requires parentPath != []
  {
    StripLeadingSlash(ReplaceAll(resource, parentPath, ""))
  }

  /** getSelectedResources: the shown names of the selected paths that contain the parent path. */
  function Shown(selected: set<string>, parentPath: string): set<string>
    requires parentPath != []
  {
    set r | r in FilteredSet(selected, parentPath) :: ShownName(r, parentPath)
  }

  /** The export response: the archive with its MIME type and file name, or an error status with a message. */
  datatype Response =
    | Download(archive: seq<Entry>, mimeType: string, disposition: string)
    | ErrorContent(status: int, message: string)

  const ExportFailure := "Error occured while importing resource. See full stack trace in log file"

  /** The "Content-Disposition" header of a download: the extension name with ".zip". */
  function Disposition(ext: string): string {
    "filename=\"" + ext + ".zip\""
  }

  class ExtensionGeneratorController {
    const generator: ExtensionGenerator
    var selected: set<string>
    var resources: map<string, seq<Node>>

    ghost predicate Valid()
      reads this, generator, generator.handlers
    {
      generator.Valid()
    }

    /** A new session: nothing selected, nothing listed. */
    constructor(generator: ExtensionGenerator)
      ensures this.generator == generator && selected == {} && resources == map[]
    {
      this.generator := generator;
      selected := {};
      resources := map[];
    }

    /**
     * index: the selection is emptied and each category's listing is
     * stored, the group sites without the spaces' sites. `listings` is what
     * the generator's listing operations return, keyed by category path.
     */
    method Index(listings: map<string, seq<Node>>)
      requires SitesGroupPath in listings
      modifies this
      ensures selected == {}
      ensures resources == listings[SitesGroupPath := WithoutSpaces(listings[SitesGroupPath])]
    {
      selected := {};
      var groupSites := RemoveSpaceSites(listings[SitesGroupPath]);
      resources := listings[SitesGroupPath := groupSites];
    }

    /** selectResources */
    method SelectResources(path: Option<string>, checked: Option<string>)
      modifies this
      ensures selected == Selected(old(selected), resources, path, checked)
      ensures resources == old(resources)
    {
      if checked.Some? && path.Some? && checked.value != [] && path.value != [] {
        if checked.value == "true" {
          if path.value in resources {
            var children := resources[path.value];
            for k := 0 to |children|
              invariant selected == old(selected) + ChildPaths(children[..k]) && resources == old(resources)
            {
              assert ChildPaths(children[..k + 1]) == ChildPaths(children[..k]) + {children[k].path} by {
                assert children[..k + 1] == children[..k] + [children[k]];
              }
              selected := selected + {children[k].path};
            }
            assert children[..|children|] == children;
          } else {
            selected := selected + {path.value};
          }
        } else {
          if path.value in resources {
            var children := resources[path.value];
            for k := 0 to |children|
              invariant selected == old(selected) - ChildPaths(children[..k]) && resources == old(resources)
            {
              assert ChildPaths(children[..k + 1]) == ChildPaths(children[..k]) + {children[k].path} by {
                assert children[..k + 1] == children[..k] + [children[k]];
              }
              selected := selected - {children[k].path};
            }
            assert children[..|children|] == children;
          } else {
            selected := selected - {path.value};
          }
        }
      }
    }

    /** getSelectedResources */
    method GetSelectedResources(parentPath: string) returns (shown: set<string>)
      requires parentPath != []
      ensures shown == Shown(selected, parentPath)
    {
      var filtered := FilterSelected(selected, parentPath);
      shown := {};
      var rest := filtered;
      while rest != {}
        invariant rest <= filtered
        invariant shown == set r | r in filtered - rest :: ShownName(r, parentPath)
        decreases |rest|
      {
        var r :| r in rest;
        shown := shown + {ShownName(r, parentPath)};
        rest := rest - {r};
      }
      assert filtered - rest == filtered;
    }

    /**
     * exportExtension: "maven" asks for the Maven project, "package" for the
     * ready-to-deploy archive, each offered as "<name>.zip"; any other type
     * is answered with status 500. `order` is the order in which the
     * selected set hands out its paths.
     */
    method ExportExtension(svc: Services, archiveType: string, ext: string, order: seq<string>)
      returns (response: Response, ghost turns: seq<Turn>, ghost ordered: seq<string>)
      requires Valid() && Ready(svc, order)
      requires forall p :: p in order <==> p in selected
      modifies generator.handlers
      ensures Valid()
      ensures archiveType == "maven" ==>
        turns == Turns(svc, ext, order, ordered, old(PathsOf(generator.handlers))) &&
        response == Download(MavenProject(svc, ext, War(svc, ext, turns)), "application/zip", Disposition(ext))
      ensures archiveType == "package" ==>
        turns == Turns(svc, ext, order, ordered, old(PathsOf(generator.handlers))) &&
        response == Download(Package(svc, ext, War(svc, ext, turns)), "application/zip", Disposition(ext))
      ensures archiveType != "maven" && archiveType != "package" ==> response == ErrorContent(500, ExportFailure)
    {
      hide Turns, War, Ready, PathsOf, MavenProject, Package;
      if archiveType == "maven" {
        var project;
        project, turns, ordered := generator.GenerateMavenProject(svc, ext, order);
        response := Download(project, "application/zip", Disposition(ext));
      } else if archiveType == "package" {
        var zip;
        zip, turns, ordered := generator.GenerateZip(svc, ext, order);
        response := Download(zip, "application/zip", Disposition(ext));
      } else {
        turns, ordered := [], [];
        response := ErrorContent(500, ExportFailure);
      }
    }
  }

  /** The iterator loop of index: each group site whose path contains "/spaces/" is removed. */
  method RemoveSpaceSites(sites: seq<Node>) returns (kept: seq<Node>)
    ensures kept == WithoutSpaces(sites)
  {
    kept := [];
    for k := 0 to |sites|
      invariant kept == WithoutSpaces(sites[..k])
    {
      assert sites[..k + 1][..k] == sites[..k];
      if !SpaceSite(sites[k]) {
        kept := kept + [sites[k]];
      }
    }
    assert sites[..|sites|] == sites;
  }

  /** The kept group sites are exactly the listed ones that are not the spaces' sites. */
  lemma {:induction false} WithoutSpacesExactly(sites: seq<Node>)
    ensures forall n :: n in WithoutSpaces(sites) <==> n in sites && !SpaceSite(n)
    ensures |WithoutSpaces(sites)| <= |sites|
    decreases |sites|
  {
    if sites != [] {
      var init := sites[..|sites| - 1];
      WithoutSpacesExactly(init);
      assert sites == init + [sites[|sites| - 1]];
    }
  }

  /** A missing or empty path or value leaves the selection as it was. */
  lemma IgnoredWhenMissing(selected: set<string>, resources: map<string, seq<Node>>, path: Option<string>, checked: Option<string>)
    requires path.None? || checked.None? || path == Some([]) || checked == Some([])
    ensures Selected(selected, resources, path, checked) == selected
  {
  }

  /**
   * Checking a category selects every child path it lists and keeps the
   * rest; unchecking it deselects exactly those children.
   */
  lemma CategorySelection(selected: set<string>, resources: map<string, seq<Node>>, path: string, checked: string)
    requires path != [] && checked != [] && path in resources
    ensures checked == "true" ==> forall p ::
      p in Selected(selected, resources, Some(path), Some(checked)) <==>
      p in selected || exists n :: n in resources[path] && n.path == p
    ensures checked != "true" ==> forall p ::
      p in Selected(selected, resources, Some(path), Some(checked)) <==>
      p in selected && forall n :: n in resources[path] ==> n.path != p
  {
  }

  /**
   * Checking then unchecking a path that is not a category and was not
   * selected restores the selection; in between only that path changed.
   */
  lemma SelectThenDeselect(selected: set<string>, resources: map<string, seq<Node>>, path: string, off: string)
    requires path != [] && path !in resources && path !in selected && off != [] && off != "true"
    ensures var on := Selected(selected, resources, Some(path), Some("true"));
      on == selected + {path} &&
      Selected(on, resources, Some(path), Some(off)) == selected
  {
  }

  /** Checking the same thing twice is checking it once. */
  lemma SelectIdempotent(selected: set<string>, resources: map<string, seq<Node>>, path: Option<string>, checked: Option<string>)
    ensures var once := Selected(selected, resources, path, checked);
      Selected(once, resources, path, checked) == once
  {
  }

  /**
   * A path checked directly as parent + "/" + name, where the rest holds no
   * further copy of the parent path, is shown under its parent as `name`.
   */
  lemma CheckedPathShown(selected: set<string>, resources: map<string, seq<Node>>, parentPath: string, name: string)
    requires parentPath != [] && parentPath + "/" + name !in resources
    requires !Contains("/" + name, parentPath)
    ensures name in Shown(Selected(selected, resources, Some(parentPath + "/" + name), Some("true")), parentPath)
  {
    var p := parentPath + "/" + name;
    assert p == parentPath + ("/" + name);
    ReplaceLeading(parentPath, "/" + name, "");
    ReplaceAbsent("/" + name, parentPath, "");
    assert ShownName(p, parentPath) == name;
    assert OccursAt(p, parentPath, 0);
    assert p in FilteredSet(Selected(selected, resources, Some(p), Some("true")), parentPath);
  }
}
