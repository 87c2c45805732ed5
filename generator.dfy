/**
 * The extension generator (ExtensionGeneratorImpl): the constructor
 * registers the configuration handlers; generateWARExtension lets each of
 * them write into one WAR, collects the configuration paths of those that
 * returned true into configuration.xml and closes the WAR with web.xml; the
 * WAR is then packaged with an activation JAR, either as a ready-to-deploy
 * archive or inside a Maven project.
 */
module Generator {
  import opened Wrappers
  import opened Sequences
  import opened Strings
  import opened Archive
  import opened Paths
  import opened Platform
  import opened Utils
  import opened HandlerBase
  import opened NodeTypeOrder
  import opened WarAssembly
  import NodeTypeHandler
  import RegistryHandler
  import MopSiteHandler
  import ScriptsHandler
  import DrivesHandler
  import DmsTemplatesHandler
  import MetadataTemplatesHandler
  import NodeTypeTemplatesHandler
  import SiteContentsHandler
  import AppTemplatesHandler
  import ClvTemplatesHandler
  import ViewHandler
  import RestHandler
  import GadgetsHandler

  /** What the node-type and site-contents handlers need of the platform. */
  ghost predicate Ready(svc: Services, selection: seq<string>) {
    Closed(svc.nodeTypes) && Acyclic(svc.nodeTypes) &&
    Distinct(NodeTypeHandler.Discovered(svc, selection)) && SiteContentsHandler.ConstantsOk(svc)
  }

  // -------------------------------------------------------------------------
  // Each registered handler's turn.

  predicate GroupA(k: Kind) {
    k.NodeTypes? || k.ApplicationRegistry? || k.MopSite? || k.Scripts?
  }

  predicate GroupB(k: Kind) {
    k.Drives? || k.MetadataTemplates? || k.NodeTypeTemplates? || k.SiteContents?
  }

  predicate GroupC(k: Kind) {
    k.ClvTemplates? || k.SiteExplorerView? || k.RestServices? || k.Gadgets?
  }

  /**
   * The turn of the node-type, registry, site and scripts handlers, for the
   * order `ordered` the node-type sort produced; none of them changes its paths.
   */
  function TurnA(svc: Services, ext: string, selection: seq<string>, k: Kind, ordered: seq<string>, paths: seq<string>): Turn
    requires GroupA(k)
  {
    match k
    case NodeTypes => Turn(NodeTypeHandler.NodeTypeRun(svc, ext, selection, ordered), paths)
    case ApplicationRegistry => Turn(RegistryHandler.RegistryRun(svc, ext, selection), paths)
    case MopSite(t) => Turn(MopSiteHandler.SitesRun(svc, ext, t, selection), paths)
    case Scripts => Turn(ScriptsHandler.ScriptsRun(svc, ext, selection), paths)
  }

  /** The turn of the drives, metadata-template, node-type-template and site-contents handlers. */
  function TurnB(svc: Services, ext: string, selection: seq<string>, k: Kind, paths: seq<string>): Turn
    requires GroupB(k) && SiteContentsHandler.ConstantsOk(svc)
  {
    match k
    case Drives => Turn(DrivesHandler.DrivesRun(svc, ext, selection), DrivesHandler.DrivesPaths(svc, selection, paths))
    case MetadataTemplates =>
      Turn(DmsTemplatesHandler.TemplatesRun(svc, MetadataTemplatesHandler.MetadataSettings, ext, selection), paths)
    case NodeTypeTemplates =>
      Turn(DmsTemplatesHandler.TemplatesRun(svc, NodeTypeTemplatesHandler.NodeTypeSettings, ext, selection), paths)
    case SiteContents => Turn(SiteContentsHandler.SiteContentsRun(svc, ext, selection), paths)
  }

  /** The turn of the content-list-viewer template, view, REST and gadgets handlers. */
  function TurnC(svc: Services, ext: string, selection: seq<string>, k: Kind, paths: seq<string>): Turn
    requires GroupC(k)
  {
    match k
    case ClvTemplates => Turn(AppTemplatesHandler.TemplatesRun(svc, ClvTemplatesHandler.ClvSettings, ext, selection), paths)
    case SiteExplorerView => Turn(ViewHandler.ViewRun(svc, ext, selection), paths)
    case RestServices => Turn(RestHandler.RestRun(svc, ext, selection), paths)
    case Gadgets => Turn(GadgetsHandler.GadgetsRun(svc, ext, selection), paths)
  }

  /** The turn of a handler whose source is not part of this model, as the platform gives it. */
  function OpaqueTurn(svc: Services, index: nat, ext: string, selection: seq<string>): Turn {
    var o := svc.opaqueHandler(index, ext, selection);
    Turn(Run(o.writes, Done(if o.extracted.Some? then Returned(o.extracted.value) else Threw)), o.configurationPaths)
  }

  /** The turn of a handler of kind `k` registered at position `index`, which reported `paths` before it. */
  function TurnOf(svc: Services, ext: string, selection: seq<string>, k: Kind, index: nat, ordered: seq<string>, paths: seq<string>): Turn
    requires !k.ActionNodeTypes? && SiteContentsHandler.ConstantsOk(svc)
  {
    if Opaque(k) then OpaqueTurn(svc, index, ext, selection)
    else if GroupA(k) then TurnA(svc, ext, selection, k, ordered, paths)
    else if GroupB(k) then TurnB(svc, ext, selection, k, paths)
    else TurnC(svc, ext, selection, k, paths)
  }

  /**
   * The turn of the handler at position `i` of the registration list
   * `kinds`, whose first handler is registered at position `offset`.
   */
  function ListTurn(svc: Services, ext: string, selection: seq<string>, kinds: seq<Kind>, offset: nat, i: nat, ordered: seq<string>, paths: seq<string>): Turn
    requires i < |kinds| && (forall k :: k in kinds ==> !k.ActionNodeTypes?) && SiteContentsHandler.ConstantsOk(svc)
    decreases i
  {
    if i == 0 then TurnOf(svc, ext, selection, kinds[0], offset, ordered, paths)
    else ListTurn(svc, ext, selection, kinds[1..], offset + 1, i - 1, ordered, paths)
  }

  /** Walking the list reaches the kind at position `i`, registered at `offset + i`. */
  lemma {:induction false} ListTurnKind(svc: Services, ext: string, selection: seq<string>, kinds: seq<Kind>, offset: nat, i: nat, ordered: seq<string>, paths: seq<string>)
    requires i < |kinds| && (forall k :: k in kinds ==> !k.ActionNodeTypes?) && SiteContentsHandler.ConstantsOk(svc)
    ensures ListTurn(svc, ext, selection, kinds, offset, i, ordered, paths) == TurnOf(svc, ext, selection, kinds[i], offset + i, ordered, paths)
    decreases i
  {
    if i > 0 {
      ListTurnKind(svc, ext, selection, kinds[1..], offset + 1, i - 1, ordered, paths);
    }
  }

  /** The registered kinds are all kinds the generator runs itself. */
  lemma KindsRegistered()
    ensures forall k :: k in HandlerKinds ==> !k.ActionNodeTypes?
  {
    forall k | k in HandlerKinds
      ensures !k.ActionNodeTypes?
    {
      var i :| 0 <= i < |HandlerKinds| && HandlerKinds[i] == k;
      RegisteredKind(i);
    }
  }

  /** The turn of the handler registered at position `i`, which reported `paths` before it. */
  function TurnAt(svc: Services, ext: string, selection: seq<string>, i: nat, ordered: seq<string>, paths: seq<string>): Turn
    requires i < |HandlerKinds| && SiteContentsHandler.ConstantsOk(svc)
  {
    KindsRegistered();
    ListTurn(svc, ext, selection, HandlerKinds, 0, i, ordered, paths)
  }

  /** Position `i` dispatches to the turn of the kind registered there. */
  lemma TurnAtKind(svc: Services, ext: string, selection: seq<string>, i: nat, ordered: seq<string>, paths: seq<string>)
    requires i < |HandlerKinds| && SiteContentsHandler.ConstantsOk(svc)
    ensures !HandlerKinds[i].ActionNodeTypes?
    ensures TurnAt(svc, ext, selection, i, ordered, paths) == TurnOf(svc, ext, selection, HandlerKinds[i], i, ordered, paths)
  {
    RegisteredKind(i);
    KindsRegistered();
    ListTurnKind(svc, ext, selection, HandlerKinds, 0, i, ordered, paths);
  }

  /** The turns of the first `n` registered handlers, in order, given the paths each reported before. */
  function TurnsUpTo(svc: Services, ext: string, selection: seq<string>, ordered: seq<string>, before: seq<seq<string>>, n: nat): (r: seq<Turn>)
    requires n <= |before| == |HandlerKinds| && SiteContentsHandler.ConstantsOk(svc)
    ensures |r| == n
    decreases n
  {
    if n == 0 then []
    else TurnsUpTo(svc, ext, selection, ordered, before, n - 1) + [TurnAt(svc, ext, selection, n - 1, ordered, before[n - 1])]
  }

  /** The turns of all registered handlers, in order. */
  function Turns(svc: Services, ext: string, selection: seq<string>, ordered: seq<string>, before: seq<seq<string>>): (r: seq<Turn>)
    requires |before| == |HandlerKinds| && SiteContentsHandler.ConstantsOk(svc)
    ensures |r| == |HandlerKinds|
  {
    TurnsUpTo(svc, ext, selection, ordered, before, |HandlerKinds|)
  }

  /** Turn `i` of the list is the turn of the handler registered at position `i`. */
  lemma {:induction false} TurnsUpToAt(svc: Services, ext: string, selection: seq<string>, ordered: seq<string>, before: seq<seq<string>>, n: nat, i: nat)
    requires i < n <= |before| == |HandlerKinds| && SiteContentsHandler.ConstantsOk(svc)
    ensures TurnsUpTo(svc, ext, selection, ordered, before, n)[i] == TurnAt(svc, ext, selection, i, ordered, before[i])
    decreases n
  {
    if i < n - 1 {
      TurnsUpToAt(svc, ext, selection, ordered, before, n - 1, i);
    }
  }

  /** Only the node-type handler's turn depends on the sort's order. */
  lemma TurnIgnoresOrder(svc: Services, ext: string, selection: seq<string>, i: nat, o1: seq<string>, o2: seq<string>, paths: seq<string>)
    requires 0 < i < |HandlerKinds| && SiteContentsHandler.ConstantsOk(svc)
    ensures TurnAt(svc, ext, selection, i, o1, paths) == TurnAt(svc, ext, selection, i, o2, paths)
  {
    hide TurnAt, TurnB, TurnC, OpaqueTurn, NodeTypeHandler.NodeTypeRun, RegistryHandler.RegistryRun,
      MopSiteHandler.SitesRun, ScriptsHandler.ScriptsRun;
    TurnAtKind(svc, ext, selection, i, o1, paths);
    TurnAtKind(svc, ext, selection, i, o2, paths);
    assert HandlerKinds[i] != NodeTypes;
  }

  // -------------------------------------------------------------------------
  // Each turn has the shape its handler guarantees.

  lemma TurnAShaped(svc: Services, ext: string, selection: seq<string>, k: Kind, ordered: seq<string>)
    requires GroupA(k)
    ensures Shaped(k, TurnA(svc, ext, selection, k, ordered, InitialPaths(k)), ext)
  {
  }

  lemma TurnBShaped(svc: Services, ext: string, selection: seq<string>, k: Kind, paths: seq<string>)
    requires GroupB(k) && SiteContentsHandler.ConstantsOk(svc)
    requires !k.Drives? ==> paths == InitialPaths(k)
    ensures Shaped(k, TurnB(svc, ext, selection, k, paths), ext)
  {
    if k.Drives? && Filtered(selection, EcmDrivePath) != [] {
      DrivesHandler.ReportedPathImportsCopy(svc, ext, selection, paths);
    }
  }

  lemma TurnCShaped(svc: Services, ext: string, selection: seq<string>, k: Kind)
    requires GroupC(k)
    ensures Shaped(k, TurnC(svc, ext, selection, k, InitialPaths(k)), ext)
  {
  }

  /** The turn of the handler at position `i`, started from its fixed paths, has the shape that handler guarantees. */
  lemma TurnAtShaped(svc: Services, ext: string, selection: seq<string>, i: nat, ordered: seq<string>, paths: seq<string>)
    requires i < |HandlerKinds| && SiteContentsHandler.ConstantsOk(svc)
    requires Fixed(HandlerKinds[i]) ==> paths == InitialPaths(HandlerKinds[i])
    ensures Shaped(HandlerKinds[i], TurnAt(svc, ext, selection, i, ordered, paths), ext)
  {
    TurnAtKind(svc, ext, selection, i, ordered, paths);
    var k := HandlerKinds[i];
    if Opaque(k) {
    } else if GroupA(k) {
      TurnAShaped(svc, ext, selection, k, ordered);
    } else if GroupB(k) {
      TurnBShaped(svc, ext, selection, k, paths);
    } else {
      TurnCShaped(svc, ext, selection, k);
    }
  }

  /** Every turn of a generation started from the handlers' fixed paths has the shape its handler guarantees. */
  lemma TurnsShaped(svc: Services, ext: string, selection: seq<string>, ordered: seq<string>, before: seq<seq<string>>)
    requires FixedPaths(before) && SiteContentsHandler.ConstantsOk(svc)
    ensures forall i :: 0 <= i < |HandlerKinds| ==> Shaped(HandlerKinds[i], Turns(svc, ext, selection, ordered, before)[i], ext)
  {
    var turns := Turns(svc, ext, selection, ordered, before);
    forall i | 0 <= i < |HandlerKinds|
      ensures Shaped(HandlerKinds[i], turns[i], ext)
    {
      TurnsUpToAt(svc, ext, selection, ordered, before, |HandlerKinds|, i);
      TurnAtShaped(svc, ext, selection, i, ordered, before[i]);
    }
  }

  /** A handler with fixed paths reports, after its turn, the paths it had before. */
  lemma FixedTurnsKeepPaths(svc: Services, ext: string, selection: seq<string>, ordered: seq<string>, before: seq<seq<string>>)
    requires |before| == |HandlerKinds| && SiteContentsHandler.ConstantsOk(svc)
    ensures forall i :: 0 <= i < |HandlerKinds| && Fixed(HandlerKinds[i]) ==>
      Turns(svc, ext, selection, ordered, before)[i].paths == before[i]
  {
    hide TurnOf, TurnA, TurnB, TurnC;
    forall i | 0 <= i < |HandlerKinds| && Fixed(HandlerKinds[i])
      ensures Turns(svc, ext, selection, ordered, before)[i].paths == before[i]
    {
      TurnsUpToAt(svc, ext, selection, ordered, before, |HandlerKinds|, i);
      TurnAtKind(svc, ext, selection, i, ordered, before[i]);
      FixedTurnKeepsPaths(svc, ext, selection, HandlerKinds[i], i, ordered, before[i]);
    }
  }

  /** The turn of a handler with fixed paths keeps the paths it had. */
  lemma FixedTurnKeepsPaths(svc: Services, ext: string, selection: seq<string>, k: Kind, index: nat, ordered: seq<string>, paths: seq<string>)
    requires !k.ActionNodeTypes? && SiteContentsHandler.ConstantsOk(svc) && Fixed(k)
    ensures TurnOf(svc, ext, selection, k, index, ordered, paths).paths == paths
  {
  }

  /**
   * In the WAR of a generation started from the handlers' fixed paths,
   * every import a modelled handler adds to configuration.xml is the war:
   * import of an entry of the WAR.
   */
  lemma GeneratedImportsResolve(svc: Services, ext: string, selection: seq<string>, ordered: seq<string>, before: seq<seq<string>>)
    requires FixedPaths(before) && SiteContentsHandler.ConstantsOk(svc)
    ensures var turns := Turns(svc, ext, selection, ordered, before);
      forall i, q ::
        (0 <= i < |HandlerKinds| && !Opaque(HandlerKinds[i]) &&
         q in Contributed(EntriesBefore(ext, turns, i), ext, turns[i])) ==>
        Resolves(q, War(svc, ext, turns))
  {
    TurnsShaped(svc, ext, selection, ordered, before);
    ImportsResolve(svc, ext, Turns(svc, ext, selection, ordered, before));
  }

  // -------------------------------------------------------------------------
  // Running one handler.

  /** Each entry written in turn. */
  method PutEntries(zos: ZipOutput, ws: seq<Entry>)
    requires zos.Valid()
    modifies zos
    ensures zos.Valid()
    ensures zos.entries == PutAll(old(zos.entries), ws)
  {
    for k := 0 to |ws|
      invariant zos.Valid()
      invariant zos.entries == PutAll(old(zos.entries), ws[..k])
    {
      PutAllSnoc(old(zos.entries), ws[..k], ws[k]);
      assert ws[..k + 1] == ws[..k] + [ws[k]];
      var _ := zos.PutNextEntry(ws[k]);
    }
    assert ws[..|ws|] == ws;
  }

  /** writeData of a node-type, registry, site or scripts handler. */
  method TakeTurnA(h: Handler, zos: ZipOutput, svc: Services, ext: string, selection: seq<string>)
    returns (outcome: Outcome, ghost ordered: seq<string>)
    requires zos.Valid() && GroupA(h.kind) && Ready(svc, selection)
    modifies h, zos
    ensures zos.Valid()
    ensures var t := TurnA(svc, ext, selection, h.kind, ordered, old(h.configurationPaths));
      zos.entries == Apply(old(zos.entries), ext, t.run) && outcome == ResultOf(old(zos.entries), ext, t.run) &&
      h.configurationPaths == t.paths
    ensures h.kind.NodeTypes? && NodeTypeHandler.SortReached(svc, selection) ==>
      NodeTypeHandler.SortedFrom(svc.nodeTypes, NodeTypeHandler.Discovered(svc, selection), ordered)
  {
    ordered := [];
    match h.kind {
      case NodeTypes =>
        var o;
        outcome, o := NodeTypeHandler.WriteData(h, zos, svc, ext, selection);
        ordered := o;
      case ApplicationRegistry =>
        outcome := RegistryHandler.WriteData(h, zos, svc, ext, selection);
      case MopSite(t) =>
        outcome := MopSiteHandler.WriteData(h, zos, svc, ext, t, selection);
      case Scripts =>
        outcome := ScriptsHandler.WriteData(h, zos, svc, ext, selection);
    }
  }

  /** writeData of a drives, metadata-template, node-type-template or site-contents handler. */
  method TakeTurnB(h: Handler, zos: ZipOutput, svc: Services, ext: string, selection: seq<string>) returns (outcome: Outcome)
    requires zos.Valid() && GroupB(h.kind) && SiteContentsHandler.ConstantsOk(svc)
    modifies h, zos
    ensures zos.Valid()
    ensures var t := TurnB(svc, ext, selection, h.kind, old(h.configurationPaths));
      zos.entries == Apply(old(zos.entries), ext, t.run) && outcome == ResultOf(old(zos.entries), ext, t.run) &&
      h.configurationPaths == t.paths
  {
    match h.kind {
      case Drives =>
        outcome := DrivesHandler.WriteData(h, zos, svc, ext, selection);
      case MetadataTemplates =>
        outcome := DmsTemplatesHandler.WriteData(h, zos, svc, MetadataTemplatesHandler.MetadataSettings, ext, selection);
      case NodeTypeTemplates =>
        outcome := DmsTemplatesHandler.WriteData(h, zos, svc, NodeTypeTemplatesHandler.NodeTypeSettings, ext, selection);
      case SiteContents =>
        outcome := SiteContentsHandler.WriteData(h, zos, svc, ext, selection);
    }
  }

  /** writeData of a content-list-viewer template, view, REST or gadgets handler. */
  method TakeTurnC(h: Handler, zos: ZipOutput, svc: Services, ext: string, selection: seq<string>) returns (outcome: Outcome)
    requires zos.Valid() && GroupC(h.kind)
    modifies h, zos
    ensures zos.Valid()
    ensures var t := TurnC(svc, ext, selection, h.kind, old(h.configurationPaths));
      zos.entries == Apply(old(zos.entries), ext, t.run) && outcome == ResultOf(old(zos.entries), ext, t.run) &&
      h.configurationPaths == t.paths
  {
    match h.kind {
      case ClvTemplates =>
        outcome := AppTemplatesHandler.WriteData(h, zos, svc, ClvTemplatesHandler.ClvSettings, ext, selection);
      case SiteExplorerView =>
        outcome := ViewHandler.WriteData(h, zos, svc, ext, selection);
      case RestServices =>
        outcome := RestHandler.WriteData(h, zos, svc, ext, selection);
      case Gadgets =>
        outcome := GadgetsHandler.WriteData(zos, svc, ext, selection);
    }
  }

  /** writeData of a handler whose source is not part of this model: its writes, result and paths come from the platform. */
  method TakeOpaqueTurn(h: Handler, index: nat, zos: ZipOutput, svc: Services, ext: string, selection: seq<string>)
    returns (outcome: Outcome)
    requires zos.Valid()
    modifies h, zos
    ensures zos.Valid()
    ensures var t := OpaqueTurn(svc, index, ext, selection);
      zos.entries == Apply(old(zos.entries), ext, t.run) && outcome == ResultOf(old(zos.entries), ext, t.run) &&
      h.configurationPaths == t.paths
  {
    var o := svc.opaqueHandler(index, ext, selection);
    PutEntries(zos, o.writes);
    h.configurationPaths := o.configurationPaths;
    outcome := if o.extracted.Some? then Returned(o.extracted.value) else Threw;
  }

  /** writeData of the handler registered at position `index`, of a kind the generator registers. */
  method TakeTurn(h: Handler, index: nat, zos: ZipOutput, svc: Services, ext: string, selection: seq<string>)
    returns (outcome: Outcome, ghost turn: Turn, ghost ordered: seq<string>)
    requires zos.Valid() && index < |HandlerKinds| && h.kind == HandlerKinds[index] && Ready(svc, selection)
    modifies h, zos
    ensures zos.Valid()
    ensures !h.kind.ActionNodeTypes?
    ensures turn == TurnOf(svc, ext, selection, h.kind, index, ordered, old(h.configurationPaths))
    ensures zos.entries == Apply(old(zos.entries), ext, turn.run)
    ensures outcome == ResultOf(old(zos.entries), ext, turn.run)
    ensures h.configurationPaths == turn.paths
    ensures h.kind.NodeTypes? && NodeTypeHandler.SortReached(svc, selection) ==>
      NodeTypeHandler.SortedFrom(svc.nodeTypes, NodeTypeHandler.Discovered(svc, selection), ordered)
  {
    hide TurnA, TurnB, TurnC, OpaqueTurn;
    var k := h.kind;
    ghost var paths := h.configurationPaths;
    ordered := [];
    RegisteredKind(index);
    if Opaque(k) {
      outcome := TakeOpaqueTurn(h, index, zos, svc, ext, selection);
      turn := OpaqueTurn(svc, index, ext, selection);
    } else if GroupA(k) {
      outcome, ordered := TakeTurnA(h, zos, svc, ext, selection);
      turn := TurnA(svc, ext, selection, k, ordered, paths);
    } else if GroupB(k) {
      outcome := TakeTurnB(h, zos, svc, ext, selection);
      turn := TurnB(svc, ext, selection, k, paths);
    } else {
      outcome := TakeTurnC(h, zos, svc, ext, selection);
      turn := TurnC(svc, ext, selection, k, paths);
    }
  }

  // -------------------------------------------------------------------------
  // The generator.

  /** Each configuration path, with the extension name substituted, added as an import of configuration.xml. */
  method AddImports(imports: seq<string>, paths: seq<string>, ext: string) returns (r: seq<string>)
    ensures r == imports + SubstituteEach(paths, ext)
  {
    r := imports;
    for j := 0 to |paths|
      invariant r == imports + SubstituteEach(paths[..j], ext)
    {
      assert SubstituteEach(paths[..j + 1], ext) == SubstituteEach(paths[..j], ext) + [Substitute(paths[j], ext)];
      r := r + [Substitute(paths[j], ext)];
    }
    assert paths[..|paths|] == paths;
  }

  /**
   * One pass of generateWARExtension's handler loop: the handler registered
   * at position `i` writes into the WAR, and its configuration paths become
   * imports when its writeData returned true. `ordered` is the node-type
   * sort's order once the first handler has run.
   */
  method TakeTurnAt(h: Handler, i: nat, zos: ZipOutput, svc: Services, ext: string, selection: seq<string>,
                    ghost before: seq<seq<string>>, ghost ordered: seq<string>, ghost turns: seq<Turn>, imports: seq<string>)
    returns (imports': seq<string>, ghost turn: Turn, ghost ordered': seq<string>)
    requires zos.Valid() && i < |HandlerKinds| && h.kind == HandlerKinds[i] && Ready(svc, selection)
    requires |before| == |HandlerKinds| && h.configurationPaths == before[i]
    requires turns == TurnsUpTo(svc, ext, selection, ordered, before, i)
    requires Assembled(ext, turns) == Assembly(zos.entries, imports)
    modifies h, zos
    ensures zos.Valid()
    ensures turns + [turn] == TurnsUpTo(svc, ext, selection, ordered', before, i + 1)
    ensures Assembled(ext, turns + [turn]) == Assembly(zos.entries, imports')
    ensures h.configurationPaths == turn.paths
    ensures i > 0 ==> ordered' == ordered
    ensures i == 0 && NodeTypeHandler.SortReached(svc, selection) ==>
      NodeTypeHandler.SortedFrom(svc.nodeTypes, NodeTypeHandler.Discovered(svc, selection), ordered')
  {
    hide TurnOf;
    ghost var es := zos.entries;
    var outcome;
    ghost var o;
    outcome, turn, o := TakeTurn(h, i, zos, svc, ext, selection);
    TurnAtKind(svc, ext, selection, i, o, before[i]);
    if i == 0 {
      ordered' := o;
    } else {
      ordered' := ordered;
      TurnIgnoresOrder(svc, ext, selection, i, o, ordered, before[i]);
    }
    imports' := imports;
    if outcome == Returned(true) {
      imports' := AddImports(imports, h.configurationPaths, ext);
    }
    AssembledSnoc(ext, turns, turn);
    assert imports' == imports + Contributed(es, ext, turn);
  }

  /** The configuration paths each handler reports. */
  function PathsOf(hs: seq<Handler>): (r: seq<seq<string>>)
    reads hs
    ensures |r| == |hs|
    ensures forall i :: 0 <= i < |hs| ==> r[i] == hs[i].configurationPaths
    decreases |hs|
  {
    if hs == [] then [] else PathsOf(hs[..|hs| - 1]) + [hs[|hs| - 1].configurationPaths]
  }

  /**
   * The state of generateWARExtension's handler loop after the first `i`
   * handlers: the WAR and the imports are what their turns assembled, the
   * handlers that ran report their turn's paths and the others the paths
   * they had before.
   */
  ghost predicate Progress(hs: seq<Handler>, zos: ZipOutput, svc: Services, ext: string, selection: seq<string>,
                           before: seq<seq<string>>, ordered: seq<string>, turns: seq<Turn>, imports: seq<string>, i: nat)
    reads hs, zos
  {
    |hs| == |HandlerKinds| && |before| == |HandlerKinds| && i <= |hs| && Ready(svc, selection) &&
    zos.Valid() && turns == TurnsUpTo(svc, ext, selection, ordered, before, i) &&
    Assembled(ext, turns) == Assembly(zos.entries, imports) &&
    (forall j :: 0 <= j < i ==> hs[j].configurationPaths == turns[j].paths) &&
    (forall j :: i <= j < |hs| ==> hs[j].configurationPaths == before[j]) &&
    (i > 0 && NodeTypeHandler.SortReached(svc, selection) ==>
      NodeTypeHandler.SortedFrom(svc.nodeTypes, NodeTypeHandler.Discovered(svc, selection), ordered))
  }

  /** One pass of the handler loop, for the handler registered at position `i`. */
  method Advance(hs: seq<Handler>, i: nat, zos: ZipOutput, svc: Services, ext: string, selection: seq<string>,
                 ghost before: seq<seq<string>>, ghost ordered: seq<string>, ghost turns: seq<Turn>, imports: seq<string>)
    returns (imports': seq<string>, ghost turns': seq<Turn>, ghost ordered': seq<string>)
    requires i < |hs| && Progress(hs, zos, svc, ext, selection, before, ordered, turns, imports, i)
    requires forall j :: 0 <= j < |hs| ==> hs[j].kind == HandlerKinds[j]
    requires forall j, k :: 0 <= j < k < |hs| ==> hs[j] != hs[k]
    modifies hs[i], zos
    ensures Progress(hs, zos, svc, ext, selection, before, ordered', turns', imports', i + 1)
  {
    // The pass carries the turns through: what each turn is plays no part here.
    hide TurnsUpTo, TurnAt, TurnOf, Assembled, Ready;
    ghost var turn;
    imports', turn, ordered' := TakeTurnAt(hs[i], i, zos, svc, ext, selection, before, ordered, turns, imports);
    turns' := turns + [turn];
  }

  /**
   * generateWARExtension's handler loop: each handler in turn writes into a
   * new WAR (an exception is logged and the next handler runs), and the
   * configuration paths of those that returned true are collected as imports.
   */
  method RunHandlers(hs: seq<Handler>, svc: Services, ext: string, selection: seq<string>, ghost before: seq<seq<string>>)
    returns (zos: ZipOutput, imports: seq<string>, ghost turns: seq<Turn>, ghost ordered: seq<string>)
    requires |hs| == |HandlerKinds| && |before| == |HandlerKinds| && Ready(svc, selection)
    requires forall j :: 0 <= j < |hs| ==> hs[j].kind == HandlerKinds[j] && hs[j].configurationPaths == before[j]
    requires forall j, k :: 0 <= j < k < |hs| ==> hs[j] != hs[k]
    modifies hs
    ensures fresh(zos)
    ensures Progress(hs, zos, svc, ext, selection, before, ordered, turns, imports, |HandlerKinds|)
  {
    hide TurnAt, TurnOf;
    zos := new ZipOutput();
    imports := [];
    turns := [];
    ordered := [];
    for i := 0 to |hs|
      invariant fresh(zos)
      invariant Progress(hs, zos, svc, ext, selection, before, ordered, turns, imports, i)
    {
      imports, turns, ordered := Advance(hs, i, zos, svc, ext, selection, before, ordered, turns, imports);
    }
  }

  /** The end of generateWARExtension: configuration.xml importing the collected paths, then web.xml. */
  method CloseWar(zos: ZipOutput, svc: Services, ext: string, imports: seq<string>, ghost turns: seq<Turn>) returns (war: seq<Entry>)
    requires zos.Valid() && Assembled(ext, turns) == Assembly(zos.entries, imports)
    modifies zos
    ensures war == War(svc, ext, turns)
  {
    var _ := WriteConfiguration(zos, ConfigurationXmlLocation, ext, MainConfiguration(imports));
    WriteStream(zos, WebXmlLocation, ext, svc.webXmlTemplate, true);
    war := zos.entries;
  }

  /**
   * What generateWARExtension does with the registered handlers: the handler
   * loop, then configuration.xml with the collected imports and web.xml.
   */
  method Generate(hs: seq<Handler>, svc: Services, ext: string, selection: seq<string>, ghost before: seq<seq<string>>)
    returns (war: seq<Entry>, ghost turns: seq<Turn>, ghost ordered: seq<string>)
    requires |hs| == |HandlerKinds| && |before| == |HandlerKinds| && Ready(svc, selection)
    requires forall j :: 0 <= j < |hs| ==> hs[j].kind == HandlerKinds[j] && hs[j].configurationPaths == before[j]
    requires forall j, k :: 0 <= j < k < |hs| ==> hs[j] != hs[k]
    requires FixedPaths(before)
    modifies hs
    ensures turns == Turns(svc, ext, selection, ordered, before)
    ensures forall i :: 0 <= i < |hs| && Fixed(HandlerKinds[i]) ==> hs[i].configurationPaths == before[i]
    ensures war == War(svc, ext, turns)
    ensures forall i :: 0 <= i < |hs| ==> hs[i].configurationPaths == turns[i].paths
    ensures NodeTypeHandler.SortReached(svc, selection) ==>
      NodeTypeHandler.SortedFrom(svc.nodeTypes, NodeTypeHandler.Discovered(svc, selection), ordered)
  {
    hide TurnsUpTo, TurnAt, TurnOf, Assembled, War, NodeTypeHandler.SortReached, NodeTypeHandler.SortedFrom, NodeTypeHandler.Discovered;
    var zos, imports;
    zos, imports, turns, ordered := RunHandlers(hs, svc, ext, selection, before);
    war := CloseWar(zos, svc, ext, imports, turns);
    FixedTurnsKeepPaths(svc, ext, selection, ordered, before);
  }

  /** The generator's filterSelectedResources: the selected paths that contain the parent path. */
  function FilteredSet(selected: set<string>, parentPath: string): set<string> {
    set p | p in selected && Contains(p, parentPath)
  }

  /** filterSelectedResources: exactly the selected paths that contain the parent path. */
  method FilterSelected(selected: set<string>, parentPath: string) returns (filtered: set<string>)
    ensures forall p :: p in filtered <==> p in selected && Contains(p, parentPath)
    ensures filtered == FilteredSet(selected, parentPath)
  {
    filtered := {};
    var rest := selected;
    while rest != {}
      invariant rest <= selected
      invariant filtered == FilteredSet(selected - rest, parentPath)
      decreases |rest|
    {
      var p :| p in rest;
      if Contains(p, parentPath) {
        filtered := filtered + {p};
      }
      rest := rest - {p};
    }
    assert selected - rest == selected;
  }

  /** generateActiovationJar: one entry, conf/configuration.xml, copied from its template with the name substituted. */
  method GenerateActivationJar(svc: Services, ext: string) returns (jar: seq<Entry>)
    ensures jar == ActivationJar(svc, ext)
  {
    var zos := new ZipOutput();
    WriteStream(zos, ActivationEntry, ext, svc.configurationTemplate, true);
    jar := zos.entries;
  }

  /** A handler of the given kind, built by that handler's own constructor. */
  method NewHandler(k: Kind) returns (h: Handler)
    requires !k.ActionNodeTypes?
    ensures fresh(h) && h.kind == k && h.tempFiles == [] && h.configurationPaths == InitialPaths(k)
  {
    match k
    case NodeTypes => h := new Handler(NodeTypes, NodeTypeHandler.ConfigurationPaths);
    case ApplicationRegistry => h := new Handler(ApplicationRegistry, RegistryHandler.ConfigurationPaths);
    case MopSite(t) => h := MopSiteHandler.NewMopSiteHandler(t);
    case Scripts => h := new Handler(Scripts, ScriptsHandler.ConfigurationPaths);
    case Drives => h := DrivesHandler.NewDrivesHandler();
    case JcrQuery => h := new Handler(JcrQuery, []);
    case MetadataTemplates => h := MetadataTemplatesHandler.NewMetadataTemplatesHandler();
    case NodeTypeTemplates => h := NodeTypeTemplatesHandler.NewNodeTypeTemplatesHandler();
    case SiteContents => h := SiteContentsHandler.NewSiteContentsHandler();
    case ClvTemplates => h := ClvTemplatesHandler.NewClvTemplatesHandler();
    case Taxonomy => h := new Handler(Taxonomy, []);
    case SiteExplorerTemplates => h := new Handler(SiteExplorerTemplates, []);
    case SiteExplorerView => h := ViewHandler.NewViewHandler();
    case RestServices => h := new Handler(RestServices, RestHandler.ConfigurationPaths);
    case Gadgets => h := GadgetsHandler.NewGadgetsHandler();
  }

  /** The two writes of generateExtensionZip: the WAR, then the activation JAR, each copied verbatim. */
  method PackageWar(svc: Services, ext: string, war: seq<Entry>) returns (zip: seq<Entry>)
    ensures zip == Package(svc, ext, war)
  {
    var zos := new ZipOutput();
    WriteStream(zos, "webapps/" + ext + ".war", ext, Zip(war), false);
    var jar := GenerateActivationJar(svc, ext);
    WriteStream(zos, "lib/" + ext + "-config.jar", ext, Zip(jar), false);
    zip := zos.entries;
  }

  /** The start of generateExtensionMavenProject: the template's files at the root, then the activation JAR's. */
  method StartMavenProject(svc: Services, ext: string) returns (zos: ZipOutput)
    ensures fresh(zos) && zos.Valid()
    ensures zos.entries == PutAll(PutAll([], Copies(svc.mavenTemplate, "", ext)), Copies(ActivationJar(svc, ext), ActivationRoot, ext))
  {
    zos := new ZipOutput();
    CopyZipEntries(svc.mavenTemplate, zos, ext, None);
    var jar := GenerateActivationJar(svc, ext);
    CopyZipEntries(jar, zos, ext, Some(ActivationRoot));
  }

  class ExtensionGenerator {
    var handlers: seq<Handler>

    /** The handlers are the registered kinds in order, distinct objects, and those with fixed paths still report them. */
    ghost predicate Valid()
      reads this, handlers
    {
      |handlers| == |HandlerKinds| &&
      (forall i :: 0 <= i < |handlers| ==> handlers[i].kind == HandlerKinds[i]) &&
      (forall i, j :: 0 <= i < j < |handlers| ==> handlers[i] != handlers[j]) &&
      (forall i :: 0 <= i < |handlers| && Fixed(HandlerKinds[i]) ==>
        handlers[i].configurationPaths == InitialPaths(HandlerKinds[i]))
    }

    /**
     * The constructor registers one handler per kind, in the fixed order of
     * HandlerKinds; each starts with no temporary file and the paths it
     * declares (none for the drives handler).
     */
    constructor()
      ensures Valid()
      ensures forall i :: 0 <= i < |handlers| ==> fresh(handlers[i]) && handlers[i].tempFiles == []
      ensures forall i :: 0 <= i < |handlers| ==> handlers[i].configurationPaths == InitialPaths(HandlerKinds[i])
    {
      hide InitialPaths, Fixed;
      var hs: seq<Handler> := [];
      for i := 0 to |HandlerKinds|
        invariant |hs| == i
        invariant forall j :: 0 <= j < i ==> fresh(hs[j]) && hs[j].kind == HandlerKinds[j] && hs[j].tempFiles == []
        invariant forall j :: 0 <= j < i ==> hs[j].configurationPaths == InitialPaths(HandlerKinds[j])
        invariant forall j, k :: 0 <= j < k < i ==> hs[j] != hs[k]
      {
        RegisteredKind(i);
        var h := NewHandler(HandlerKinds[i]);
        hs := hs + [h];
      }
      handlers := hs;
    }

    /** The handlers stay valid when the fixed ones still report the paths they were built with. */
    lemma StillValid(before: seq<seq<string>>)
      requires FixedPaths(before) && |handlers| == |HandlerKinds|
      requires forall i :: 0 <= i < |handlers| ==> handlers[i].kind == HandlerKinds[i]
      requires forall i, j :: 0 <= i < j < |handlers| ==> handlers[i] != handlers[j]
      requires forall i :: 0 <= i < |handlers| && Fixed(HandlerKinds[i]) ==> handlers[i].configurationPaths == before[i]
      ensures Valid()
    {
    }

    /**
     * generateWARExtension: the handler loop, then configuration.xml with
     * the collected imports and web.xml. `turns` is what each handler did,
     * `ordered` the order the node-type handler's sort chose.
     */
    method GenerateWar(svc: Services, ext: string, selection: seq<string>)
      returns (war: seq<Entry>, ghost turns: seq<Turn>, ghost ordered: seq<string>)
      requires Valid() && Ready(svc, selection)
      modifies handlers
      ensures Valid()
      ensures turns == Turns(svc, ext, selection, ordered, old(PathsOf(handlers)))
      ensures |turns| == |handlers|
      ensures war == War(svc, ext, turns)
      ensures forall i :: 0 <= i < |handlers| ==> handlers[i].configurationPaths == turns[i].paths
      ensures NodeTypeHandler.SortReached(svc, selection) ==>
        NodeTypeHandler.SortedFrom(svc.nodeTypes, NodeTypeHandler.Discovered(svc, selection), ordered)
    {
      hide TurnsUpTo, TurnAt, TurnOf, Assembled, War, Turns, Ready, NodeTypeHandler.SortReached, NodeTypeHandler.SortedFrom, NodeTypeHandler.Discovered;
      ghost var before := PathsOf(handlers);
      assert FixedPaths(before);
      war, turns, ordered := Generate(handlers, svc, ext, selection, before);
      StillValid(before);
    }

    /** generateExtensionZip: the WAR under webapps/, then the activation JAR under lib/, both copied verbatim. */
    method GenerateZip(svc: Services, ext: string, selection: seq<string>)
      returns (zip: seq<Entry>, ghost turns: seq<Turn>, ghost ordered: seq<string>)
      requires Valid() && Ready(svc, selection)
      modifies handlers
      ensures Valid()
      ensures turns == Turns(svc, ext, selection, ordered, old(PathsOf(handlers)))
      ensures zip == Package(svc, ext, War(svc, ext, turns))
    {
      hide Turns, War, Ready, PathsOf, Package;
      var war;
      war, turns, ordered := GenerateWar(svc, ext, selection);
      zip := PackageWar(svc, ext, war);
    }

    /**
     * generateExtensionMavenProject: the Maven template's files at the root,
     * then the activation JAR's below config/src/main/resources and the WAR's
     * below war/src/main/webapp.
     */
    method GenerateMavenProject(svc: Services, ext: string, selection: seq<string>)
      returns (project: seq<Entry>, ghost turns: seq<Turn>, ghost ordered: seq<string>)
      requires Valid() && Ready(svc, selection)
      modifies handlers
      ensures Valid()
      ensures turns == Turns(svc, ext, selection, ordered, old(PathsOf(handlers)))
      ensures project == MavenProject(svc, ext, War(svc, ext, turns))
    {
      hide Turns, War, Ready, PathsOf, PutAll, Copies, ActivationJar;
      var zos := StartMavenProject(svc, ext);
      var war;
      war, turns, ordered := GenerateWar(svc, ext, selection);
      CopyZipEntries(war, zos, ext, Some(WarRoot));
      project := zos.entries;
    }
  }
}
