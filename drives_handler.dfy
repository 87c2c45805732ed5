/**
 * The drives handler (DrivesConfigurationHandler): copies the exported
 * drives configuration under the DMS location and reports it as its only
 * configuration path. Unlike the other handlers it forgets its paths at the
 * start of every run that has drives to export, and swallows every failure.
 */
module DrivesHandler {
  import opened Wrappers
  import opened Strings
  import opened KernelXml
  import opened Archive
  import opened Paths
  import opened Platform
  import opened Utils
  import opened HandlerBase

  /** The drives file's name below the DMS location: the exported name without "ecmadmin/". */
  const DrivesFileName := "drive/drives-" + "configuration.xml"

  /** DRIVE_CONFIGURATION_LOCATION_FROM_EXPORT: the entry the export holds the drives in. */
  const ExportedDrivesEntry := "ecmadmin/" + DrivesFileName

  /** The export filter prefix: each selected path loses it to become a drive name. */
  const FilterPrefix := EcmDrivePath + "/"

  /** The constructor: a drives handler reports no configuration path before its first run. */
  method NewDrivesHandler() returns (h: Handler)
    ensures fresh(h)
    ensures h.kind == Drives && h.tempFiles == [] && h.configurationPaths == []
  {
    h := new Handler(Drives, []);
  }

  /** The exported drives entry, when the export succeeds and holds it. */
  function DrivesEntry(svc: Services, selection: seq<string>): Option<Entry> {
    var filtered := Filtered(selection, EcmDrivePath);
    var zip := ExportOf(svc, EcmDrivePath, StripAll(filtered, FilterPrefix));
    if zip.None? then None else FindEntry(zip.value, ExportedDrivesEntry)
  }

  /** The copy of the drives entry, bytes unchanged, under the DMS location. */
  function DrivesCopy(ext: string, e: Entry): Entry {
    Entry(StreamEntryName(DmsLocation + ReplaceAll(e.name, "ecmadmin/", ""), ext), e.content)
  }

  /** writeData: a missing entry (dereferencing null) and a failed export are both caught and answered false. */
  function DrivesRun(svc: Services, ext: string, selection: seq<string>): Run {
    if Filtered(selection, EcmDrivePath) == [] then Declined
    else
      var entry := DrivesEntry(svc, selection);
      if entry.None? then Declined
      else Run([DrivesCopy(ext, entry.value)], Done(Returned(true)))
  }

  /** The configuration paths after writeData. */
  function DrivesPaths(svc: Services, selection: seq<string>, before: seq<string>): seq<string> {
    if Filtered(selection, EcmDrivePath) == [] then before
    else
      var entry := DrivesEntry(svc, selection);
      if entry.None? then []
      else [WarForm(DmsLocation) + ReplaceAll(entry.value.name, "ecmadmin/", "")]
  }

  /** The exported drives entry loses its "ecmadmin/" to become "drive/drives-configuration.xml". */
  lemma DrivesFileNamed()
    ensures ReplaceAll(ExportedDrivesEntry, "ecmadmin/", "") == DrivesFileName
  {
    var head := "drive/drives-";
    var tail := "configuration.xml";
    ReplaceLeading("ecmadmin/", DrivesFileName, "");
    assert "" + ReplaceAll(DrivesFileName, "ecmadmin/", "") == ReplaceAll(DrivesFileName, "ecmadmin/", "");
    assert '-' !in "ecmadmin/" && 'm' in "ecmadmin/" && 'm' !in head && '/' in "ecmadmin/" && '/' !in tail;
    ReplaceSplit(head, tail, "ecmadmin/", "");
    ReplaceMissingChar(head, "ecmadmin/", "", 'm');
    ReplaceMissingChar(tail, "ecmadmin/", "", '/');
  }

  /** The copy of the drives file keeps its name: nothing in it reads "/ecmadmin". */
  lemma DrivesCopyNamed(ext: string)
    ensures StreamEntryName(DmsLocation + DrivesFileName, ext) == WrittenName(DmsLocation + DrivesFileName, ext)
  {
    var head := DmsLocation + "drive/drives-";
    var tail := "configuration.xml";
    assert DmsLocation + DrivesFileName == head + tail;
    assert 'W' !in "/ecmadmin";
    assert 'a' !in "WEB-INF" && 'a' !in "/conf/" && 'a' !in Placeholder && 'a' !in "/dms/" && 'a' !in "drive/drives-";
    assert 'a' in "/ecmadmin" && '-' !in "/ecmadmin" && '/' in "/ecmadmin" && '/' !in tail;
    ReplaceSplit(head, tail, "/ecmadmin", "");
    ReplaceMissingChar(head, "/ecmadmin", "", 'a');
    ReplaceMissingChar(tail, "/ecmadmin", "", '/');
  }

  /**
   * A run that extracts the drives reports exactly one configuration path,
   * and that path, once substituted, imports the entry the run wrote; a run
   * that fails reports none.
   */
  lemma ReportedPathImportsCopy(svc: Services, ext: string, selection: seq<string>, before: seq<string>)
    requires Filtered(selection, EcmDrivePath) != []
    ensures DrivesRun(svc, ext, selection).finish == Done(Returned(true)) <==> |DrivesPaths(svc, selection, before)| == 1
    ensures DrivesRun(svc, ext, selection).finish == Done(Returned(false)) <==> DrivesPaths(svc, selection, before) == []
    ensures |DrivesPaths(svc, selection, before)| == 1 ==>
      Imports(Substitute(DrivesPaths(svc, selection, before)[0], ext), DrivesRun(svc, ext, selection).writes[0].name)
  {
    var entry := DrivesEntry(svc, selection);
    if entry.Some? {
      assert entry.value.name == ExportedDrivesEntry;
      DrivesFileNamed();
      DrivesCopyNamed(ext);
      DmsImportNames(DrivesFileName, ext);
    }
  }

  /** writeData */
  method WriteData(h: Handler, zos: ZipOutput, svc: Services, ext: string, selection: seq<string>) returns (outcome: Outcome)
    requires zos.Valid()
    modifies h, zos
    ensures zos.Valid()
    ensures zos.entries == Apply(old(zos.entries), ext, DrivesRun(svc, ext, selection))
    ensures outcome == ResultOf(old(zos.entries), ext, DrivesRun(svc, ext, selection))
    ensures h.tempFiles == (if Filtered(selection, EcmDrivePath) == [] then old(h.tempFiles) else [])
    ensures h.configurationPaths == DrivesPaths(svc, selection, old(h.configurationPaths))
  {
    var filtered := FilterSelectedResources(selection, EcmDrivePath);
    if filtered == [] {
      DeclinedLeavesArchive(zos.entries, ext);
      return Returned(false);
    }
    h.configurationPaths := [];
    var filters := ExportFilters(filtered, FilterPrefix);
    var zip := Export(h, svc, EcmDrivePath, filters);
    if zip.None? {
      ClearTempFiles(h);
      DeclinedLeavesArchive(zos.entries, ext);
      return Returned(false);
    }
    var entry := FindEntry(zip.value, ExportedDrivesEntry);
    if entry.None? {
      ClearTempFiles(h);
      DeclinedLeavesArchive(zos.entries, ext);
      return Returned(false);
    }
    var name := ReplaceAll(entry.value.name, "ecmadmin/", "");
    var copy := DrivesCopy(ext, entry.value);
    assert [copy][..0] == [];
    assert PutAll(zos.entries, [copy]) == Put(PutAll(zos.entries, []), copy) == Put(zos.entries, copy);
    WriteStream(zos, DmsLocation + name, ext, entry.value.content, false);
    h.configurationPaths := h.configurationPaths + [WarForm(DmsLocation) + name];
    ClearTempFiles(h);
    outcome := Returned(true);
  }
}
