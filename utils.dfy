/**
 * The archive writers every handler uses (Utils): entry naming with the
 * extension name substituted, "/ecmadmin" removal for exported streams,
 * content substitution, configuration documents, copying a whole archive
 * under a root path, and the template-list conversion.
 */
module Utils {
  import opened Wrappers
  import opened Strings
  import opened KernelXml
  import opened Archive
  import opened Paths
  import opened Platform

  // -------------------------------------------------------------------------
  // Content and names.

  /**
   * The content once "custom-extension" is replaced by the extension name
   * inside it: text is rewritten; a marshalled document records one more
   * substitution of its rendering; a nested archive is left as it is.
   */
  function SubstituteContent(c: Content, ext: string): (r: Content)
    ensures r.Text? <==> c.Text?
    ensures c.Text? ==> r.text == Substitute(c.text, ext)
    ensures c.Xml? ==> r == Xml(c.document, c.substitutions + [ext])
    ensures c.Zip? ==> r == c
  {
    match c
    case Text(t) => Text(Substitute(t, ext))
    case Xml(d, subs) => Xml(d, subs + [ext])
    case Zip(_) => c
  }

  /** The name under which the stream writer stores `entryName`: every "/ecmadmin" removed first. */
  function StreamEntryName(entryName: string, ext: string): string {
    WrittenName(ReplaceAll(entryName, "/ecmadmin", ""), ext)
  }

  /** A pattern whose second character differs from the text's does not match at its head. */
  lemma ReplaceSkipsHead(s: string, p: string, r: string)
    requires |s| >= 2 && |p| >= 2 && s[1] != p[1]
    ensures ReplaceAll(s, p, r) == [s[0]] + ReplaceAll(s[1..], p, r)
  {
    assert !(p <= s) by { assert s[1] != p[1]; }
  }

  /** The stream writer drops a leading "/ecmadmin". */
  lemma StreamWriterDropsEcmadmin(rest: string, ext: string)
    ensures StreamEntryName("/ecmadmin" + rest, ext) == StreamEntryName(rest, ext)
  {
    ReplaceLeading("/ecmadmin", rest, "");
    assert "" + ReplaceAll(rest, "/ecmadmin", "") == ReplaceAll(rest, "/ecmadmin", "");
  }

  /** The string writer keeps a leading "/ecmadmin": only its '/' is stripped. */
  lemma StringWriterKeepsEcmadmin(rest: string, ext: string)
    ensures WrittenName("/ecmadmin" + rest, ext) == "ecmadmin" + Substitute(rest, ext)
  {
    var s := "cmadmin" + rest;
    assert "/ecmadmin" + rest == "/e" + s;
    SubstituteKeepsHead("/e", s, ext);
    ReplaceSkipsHead(s, Placeholder, ext);
    assert s[1..] == "madmin" + rest;
    SubstituteKeepsHead("madmin", rest, ext);
    var w := Substitute("/ecmadmin" + rest, ext);
    assert w == "/e" + ([s[0]] + ("madmin" + Substitute(rest, ext)));
    assert w == "/" + ("ecmadmin" + Substitute(rest, ext));
  }

  // -------------------------------------------------------------------------
  // The writers.

  /**
   * The private byte writer: one leading '/' is dropped, and an entry the
   * stream refuses (a duplicate name) is logged and lost; the caller is not told.
   */
  method WriteBytes(zos: ZipOutput, entryName: string, content: Content)
    requires zos.Valid()
    modifies zos
    ensures zos.Valid()
    ensures zos.entries == Put(old(zos.entries), Entry(StripLeadingSlash(entryName), content))
  {
    var name := entryName;
    if "/" <= name {
      name := name[1..];
    }
    var _ := zos.PutNextEntry(Entry(name, content));
  }

  /**
   * writeZipEnry(zos, entryName, extensionName, String content, changeContent):
   * the name is substituted; the content only when `changeContent` holds.
   */
  method WriteString(zos: ZipOutput, entryName: string, ext: string, content: Content, changeContent: bool)
    requires zos.Valid()
    modifies zos
    ensures zos.Valid()
    ensures zos.entries == Put(old(zos.entries),
      Entry(WrittenName(entryName, ext), if changeContent then SubstituteContent(content, ext) else content))
  {
    var name := Substitute(entryName, ext);
    var c := content;
    if changeContent {
      c := SubstituteContent(content, ext);
    }
    WriteBytes(zos, name, c);
  }

  /**
   * writeZipEnry(zos, entryName, extensionName, InputStream, changeContent):
   * every "/ecmadmin" is removed from the name; with `changeContent` the
   * stream is decoded and handed to the string writer, otherwise the name is
   * substituted and the bytes are copied verbatim.
   */
  method WriteStream(zos: ZipOutput, entryName: string, ext: string, content: Content, changeContent: bool)
    requires zos.Valid()
    modifies zos
    ensures zos.Valid()
    ensures zos.entries == Put(old(zos.entries),
      Entry(StreamEntryName(entryName, ext), if changeContent then SubstituteContent(content, ext) else content))
  {
    var name := ReplaceAll(entryName, "/ecmadmin", "");
    if changeContent {
      WriteString(zos, name, ext, content, true);
    } else {
      name := Substitute(name, ext);
      WriteBytes(zos, name, content);
    }
  }

  /** The entry writeConfiguration adds: the document, rendered with the extension name substituted. */
  function ConfigurationEntry(entryName: string, ext: string, configuration: Configuration): Entry {
    Entry(WrittenName(entryName, ext), Xml(configuration, [ext]))
  }

  /**
   * writeConfiguration(zos, entryName, extensionName, Configuration): false
   * exactly when the stream refuses the entry.
   */
  method WriteConfiguration(zos: ZipOutput, entryName: string, ext: string, configuration: Configuration)
    returns (ok: bool)
    requires zos.Valid()
    modifies zos
    ensures zos.Valid()
    ensures ok == (WrittenName(entryName, ext) !in Names(old(zos.entries)))
    ensures zos.entries == Put(old(zos.entries), ConfigurationEntry(entryName, ext, configuration))
  {
    var name := Substitute(entryName, ext);
    if "/" <= name {
      name := name[1..];
    }
    ok := zos.PutNextEntry(Entry(name, Xml(configuration, [ext])));
  }

  /**
   * writeConfiguration(zos, entryName, extensionName, ExternalComponentPlugins...):
   * a fresh configuration holding the plugin groups in argument order.
   */
  method WritePlugins(zos: ZipOutput, entryName: string, ext: string, groups: seq<ExternalComponentPlugins>)
    returns (ok: bool)
    requires zos.Valid()
    modifies zos
    ensures zos.Valid()
    ensures ok == (WrittenName(entryName, ext) !in Names(old(zos.entries)))
    ensures zos.entries == Put(old(zos.entries), ConfigurationEntry(entryName, ext, Configuration([], groups, [])))
  {
    var configuration := EmptyConfiguration;
    for i := 0 to |groups|
      invariant configuration == Configuration([], groups[..i], [])
    {
      assert groups[..i + 1] == groups[..i] + [groups[i]];
      configuration := configuration.(externalComponentPlugins := configuration.externalComponentPlugins + [groups[i]]);
    }
    assert groups[..|groups|] == groups;
    ok := WriteConfiguration(zos, entryName, ext, configuration);
  }

  // -------------------------------------------------------------------------
  // Collapsing "//" (copyZipEnries).

  /** "//" at index i. */
  predicate DoubleAt(s: string, i: int) {
    0 <= i < |s| - 1 && s[i] == '/' && s[i + 1] == '/'
  }

  ghost predicate NoDouble(s: string) {
    forall i :: !DoubleAt(s, i)
  }

  /** `s` with every run of '/' collapsed to a single '/'. */
  function Squeeze(s: string): string
    decreases |s|
  {
    if s == [] then []
    else if |s| >= 2 && s[0] == '/' && s[1] == '/' then Squeeze(s[1..])
    else [s[0]] + Squeeze(s[1..])
  }

  predicate StartsWithSlash(s: string) {
    s != [] && s[0] == '/'
  }

  lemma NoDoubleIff(s: string)
    ensures NoDouble(s) <==> !Contains(s, "//")
  {
    var r := IndexOf(s, "//");
    if r >= 0 {
      assert s[r..r + 2] == "//";
      assert s[r] == s[r..r + 2][0] && s[r + 1] == s[r..r + 2][1];
      assert DoubleAt(s, r);
    } else {
      forall i | DoubleAt(s, i) ensures false {
        assert s[i..i + 2] == "//";
        assert OccursAt(s, "//", i);
      }
    }
  }

  /** Squeezing keeps the first character. */
  lemma {:induction false} SqueezeHead(s: string)
    ensures s == [] <==> Squeeze(s) == []
    ensures s != [] ==> Squeeze(s)[0] == s[0]
    ensures StartsWithSlash(Squeeze(s)) <==> StartsWithSlash(s)
    decreases |s|
  {
    if |s| >= 2 && s[0] == '/' && s[1] == '/' {
      SqueezeHead(s[1..]);
    }
  }

  /** The result of squeezing holds no "//". */
  lemma {:induction false} SqueezeNoDouble(s: string)
    ensures NoDouble(Squeeze(s))
    decreases |s|
  {
    if s == [] {
    } else if |s| >= 2 && s[0] == '/' && s[1] == '/' {
      SqueezeNoDouble(s[1..]);
    } else {
      SqueezeNoDouble(s[1..]);
      SqueezeHead(s[1..]);
      var r := Squeeze(s);
      assert r == [s[0]] + Squeeze(s[1..]);
      forall i | DoubleAt(r, i) ensures false {
        if i > 0 {
          assert DoubleAt(Squeeze(s[1..]), i - 1);
        }
      }
    }
  }

  /** A string without "//" is its own squeeze. */
  lemma {:induction false} SqueezeFixed(s: string)
    requires NoDouble(s)
    ensures Squeeze(s) == s
    decreases |s|
  {
    if s != [] {
      assert !DoubleAt(s, 0);
      assert NoDouble(s[1..]) by {
        forall i | DoubleAt(s[1..], i) ensures false {
          assert DoubleAt(s, i + 1);
        }
      }
      SqueezeFixed(s[1..]);
    }
  }

  lemma DoublePrefix(s: string)
    ensures ("//" <= s) <==> (|s| >= 2 && s[0] == '/' && s[1] == '/')
  {
    if |s| >= 2 && s[0] == '/' && s[1] == '/' {
      assert s[..2] == "//";
    }
  }

  /** One pass of `replace("//", "/")` does not change the squeeze. */
  lemma {:induction false} ReplacePreservesSqueeze(s: string)
    ensures Squeeze(ReplaceAll(s, "//", "/")) == Squeeze(s)
    decreases |s|
  {
    if s == [] {
    } else if "//" <= s {
      var t := s[2..];
      assert ReplaceAll(s, "//", "/") == "/" + ReplaceAll(t, "//", "/");
      ReplacePreservesSqueeze(t);
      var rt := ReplaceAll(t, "//", "/");
      SqueezeHead(t);
      SqueezeHead(rt);
      assert ("/" + rt)[1..] == rt;
      assert s[1..] == "/" + t;
      assert ("/" + t)[1..] == t;
      assert Squeeze(s) == Squeeze("/" + t);
    } else {
      var t := s[1..];
      assert ReplaceAll(s, "//", "/") == [s[0]] + ReplaceAll(t, "//", "/");
      ReplacePreservesSqueeze(t);
      var rt := ReplaceAll(t, "//", "/");
      SqueezeHead(t);
      SqueezeHead(rt);
      assert ([s[0]] + rt)[1..] == rt;
      DoublePrefix(s);
    }
  }

  /**
   * `while (name.contains("//")) name = name.replace("//", "/")`: the loop
   * ends, with every run of '/' collapsed to one.
   */
  method CollapseDoubleSlashes(s: string) returns (t: string)
    ensures t == Squeeze(s)
    ensures !Contains(t, "//")
  {
    t := s;
    while Contains(t, "//")
      invariant Squeeze(t) == Squeeze(s)
      decreases |t|
    {
      ReplaceShrinks(t, "//", "/");
      ReplacePreservesSqueeze(t);
      t := ReplaceAll(t, "//", "/");
    }
    NoDoubleIff(t);
    SqueezeFixed(t);
  }

  // -------------------------------------------------------------------------
  // copyZipEnries

  /** copyZipEnries copies an entry only when it is not a directory and its name holds a '.'. */
  predicate Copyable(e: Entry) {
    !IsDirectory(e) && Contains(e.name, ".")
  }

  /**
   * The target name of a copied entry: root + "/" + name, "//" collapsed
   * until none is left, then one leading '/' dropped.
   */
  function CopyTarget(root: string, name: string): (r: string)
    ensures !Contains(r, "//")
    ensures !StartsWithSlash(r)
  {
    var sq := Squeeze(root + "/" + name);
    SqueezeNoDouble(root + "/" + name);
    var r := StripLeadingSlash(sq);
    assert NoDouble(r) && !StartsWithSlash(r) by {
      if "/" <= sq {
        assert r == sq[1..];
        forall i | DoubleAt(r, i) ensures false {
          assert DoubleAt(sq, i + 1);
        }
        if StartsWithSlash(r) {
          assert DoubleAt(sq, 0);
        }
      } else {
        assert r == sq;
      }
    }
    NoDoubleIff(r);
    r
  }

  /** What copyZipEnries writes for one copied entry: content substitution is always on. */
  function CopyOf(root: string, ext: string, e: Entry): Entry {
    Entry(StreamEntryName(CopyTarget(root, e.name), ext), SubstituteContent(e.content, ext))
  }

  /** The entries copyZipEnries writes, in order. */
  function Copies(zin: seq<Entry>, root: string, ext: string): seq<Entry>
    decreases |zin|
  {
    if zin == [] then []
    else
      var e := zin[|zin| - 1];
      Copies(zin[..|zin| - 1], root, ext) + (if Copyable(e) then [CopyOf(root, ext, e)] else [])
  }

  /** The source entries copyZipEnries copies, in order. */
  function CopySources(zin: seq<Entry>): (r: seq<Entry>)
    ensures forall e :: e in r <==> e in zin && Copyable(e)
    decreases |zin|
  {
    if zin == [] then []
    else
      var e := zin[|zin| - 1];
      assert zin == zin[..|zin| - 1] + [e];
      CopySources(zin[..|zin| - 1]) + (if Copyable(e) then [e] else [])
  }

  /** The copies are exactly the copyable source entries, renamed and substituted, in their order. */
  lemma {:induction false} CopiesOfSources(zin: seq<Entry>, root: string, ext: string)
    ensures |Copies(zin, root, ext)| == |CopySources(zin)|
    ensures forall i :: 0 <= i < |CopySources(zin)| ==>
      Copies(zin, root, ext)[i] == CopyOf(root, ext, CopySources(zin)[i])
    decreases |zin|
  {
    if zin != [] {
      CopiesOfSources(zin[..|zin| - 1], root, ext);
    }
  }

  /** One more source entry adds its copy, if it is copyable. */
  lemma CopiesSnoc(zin: seq<Entry>, k: nat, root: string, ext: string)
    requires k < |zin|
    ensures Copies(zin[..k + 1], root, ext)
      == Copies(zin[..k], root, ext) + (if Copyable(zin[k]) then [CopyOf(root, ext, zin[k])] else [])
  {
    assert zin[..k + 1][..k] == zin[..k];
  }

  /**
   * copyZipEnries(zin, zos, extensionName, rootPathInTarget): a missing root
   * is the empty root.
   */
  method CopyZipEntries(zin: seq<Entry>, zos: ZipOutput, ext: string, rootPathInTarget: Option<string>)
    requires zos.Valid()
    modifies zos
    ensures zos.Valid()
    ensures zos.entries == PutAll(old(zos.entries), Copies(zin, if rootPathInTarget.None? then "" else rootPathInTarget.value, ext))
  {
    var root := if rootPathInTarget.None? then "" else rootPathInTarget.value;
    for k := 0 to |zin|
      invariant zos.Valid()
      invariant zos.entries == PutAll(old(zos.entries), Copies(zin[..k], root, ext))
    {
      var entry := zin[k];
      CopiesSnoc(zin, k, root, ext);
      if !(IsDirectory(entry) || !Contains(entry.name, ".")) {
        var target := root + "/" + entry.name;
        target := CollapseDoubleSlashes(target);
        if "/" <= target {
          target := target[1..];
        }
        assert target == CopyTarget(root, entry.name);
        PutAllSnoc(old(zos.entries), Copies(zin[..k], root, ext), CopyOf(root, ext, entry));
        WriteStream(zos, target, ext, entry.content, true);
      } else {
        assert Copies(zin[..k], root, ext) + [] == Copies(zin[..k], root, ext);
      }
    }
    assert zin[..|zin|] == zin;
  }

  // -------------------------------------------------------------------------
  // convertTemplateList

  /** The templates convertTemplateList keeps: those with a file, ':' replaced by '_', roles kept. */
  function ConvertedTemplates(list: seq<NodeTemplate>): seq<Template>
    decreases |list|
  {
    if list == [] then []
    else
      var t := list[|list| - 1];
      ConvertedTemplates(list[..|list| - 1])
        + (if t.templateFile.Some? then [Template(ReplaceAll(t.templateFile.value, ":", "_"), t.roles)] else [])
  }

  lemma {:induction false} ReplaceColonGone(s: string)
    ensures ':' !in ReplaceAll(s, ":", "_")
    decreases |s|
  {
    if s != [] {
      ReplaceColonGone(s[|":"|..]);
      ReplaceColonGone(s[1..]);
    }
  }

  /**
   * No converted template file name holds ':'; with no missing file the
   * result matches the input one to one, in order, roles unchanged.
   */
  lemma {:induction false} ConvertedTemplatesFacts(list: seq<NodeTemplate>)
    ensures |ConvertedTemplates(list)| <= |list|
    ensures forall t :: t in ConvertedTemplates(list) ==> ':' !in t.templateFile
    ensures (forall i :: 0 <= i < |list| ==> list[i].templateFile.Some?) ==>
      |ConvertedTemplates(list)| == |list| &&
      forall i :: 0 <= i < |list| ==>
        ConvertedTemplates(list)[i] == Template(ReplaceAll(list[i].templateFile.value, ":", "_"), list[i].roles)
    decreases |list|
  {
    if list != [] {
      var t := list[|list| - 1];
      ConvertedTemplatesFacts(list[..|list| - 1]);
      if t.templateFile.Some? {
        ReplaceColonGone(t.templateFile.value);
      }
    }
  }

  /** convertTemplateList: a missing or empty list gives an empty list. */
  method ConvertTemplateList(list: Option<seq<NodeTemplate>>) returns (templates: seq<Template>)
    ensures list.None? ==> templates == []
    ensures list.Some? ==> templates == ConvertedTemplates(list.value)
  {
    templates := [];
    if list.None? || list.value == [] {
      return;
    }
    var l := list.value;
    for k := 0 to |l|
      invariant templates == ConvertedTemplates(l[..k])
    {
      assert l[..k + 1][..k] == l[..k];
      var nodeTemplate := l[k];
      if nodeTemplate.templateFile.Some? {
        templates := templates + [Template(ReplaceAll(nodeTemplate.templateFile.value, ":", "_"), nodeTemplate.roles)];
      }
    }
    assert l[..|l|] == l;
  }
}
