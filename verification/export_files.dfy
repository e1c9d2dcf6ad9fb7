/** Export archives on disk: their names, and the single-generation backup taken
    before an archive is overwritten. The disk is a map from paths to contents. */
module ExportFiles {

  newtype byte = x: int | 0 <= x < 256
  type Bytes = seq<byte>
  type Path = string
  type FileSystem = map<Path, Bytes>

  const ArchiveExtension: string := ".iar"
  const BackupExtension: string := ".bak"
  /** The archive an import-replace uploads from the import directory. */
  const ReplaceArchive: string := "TESTINTEGRATION_01.00.0000.iar"

  /** `"{code}-{version}.iar"`. */
  function ArchiveName(code: string, version: string): string
  {
    code + "-" + version + ArchiveExtension
  }

  /** `os.path.join(dir, name)` for a relative `name`. */
  function Join(dir: Path, name: string): Path
  {
    if dir == [] || dir[|dir| - 1] == '/' then dir + name else dir + "/" + name
  }

  /** Where an existing archive is moved before it is overwritten. */
  function BackupPath(path: Path): Path
  {
    path + BackupExtension
  }

  /** Where the export of the archive can fail with an `IOError`: creating the export
      directory (before the archive's path is even computed), renaming the old archive to
      its backup (nothing changed yet), or opening the new file for writing (the old file
      has already been moved away). */
  datatype WriteFault = NoFault | AtMakedirs | AtRename | AtOpen

  /** Writing `data` to `path`: an existing file is first moved to its backup path,
      replacing any older backup; then the new contents are written. */
  function Save(fs: FileSystem, path: Path, data: Bytes, fault: WriteFault): (fs': FileSystem)
    ensures fault == NoFault ==> path in fs' && fs'[path] == data
    ensures fault == AtMakedirs || fault == AtRename ==> fs' == fs
    ensures fault == AtOpen ==> path !in fs'
    ensures (fault == NoFault || fault == AtOpen) && path in fs ==>
      BackupPath(path) in fs' && fs'[BackupPath(path)] == fs[path]
    ensures path !in fs ==>
      (BackupPath(path) in fs' <==> BackupPath(path) in fs) &&
      (BackupPath(path) in fs ==> fs'[BackupPath(path)] == fs[BackupPath(path)])
    ensures forall p :: p != path && p != BackupPath(path) ==>
      (p in fs' <==> p in fs) && (p in fs ==> fs'[p] == fs[p])
  {
    if fault == AtMakedirs || fault == AtRename then fs
    else
      var rotated := if path in fs then (fs - {path})[BackupPath(path) := fs[path]] else fs;
      if fault == AtOpen then rotated else rotated[path := data]
  }

  /** A second export of the same archive repeats the rotation: the first export's bytes
      become the backup, so only one generation is kept. */
  lemma SaveTwiceKeepsOneGeneration(fs: FileSystem, path: Path, first: Bytes, second: Bytes)
    ensures var fs2 := Save(Save(fs, path, first, NoFault), path, second, NoFault);
      && fs2[path] == second
      && fs2[BackupPath(path)] == first
      && forall p :: p != path && p != BackupPath(path) ==>
           (p in fs2 <==> p in fs) && (p in fs ==> fs2[p] == fs[p])
  {
  }

  /** A backup is never the archive path of any item, so a rotation never overwrites
      another item's archive. */
  lemma {:induction false} BackupIsNoArchive(dir: Path, code: string, version: string,
                                             dir': Path, code': string, version': string)
    ensures BackupPath(Join(dir, ArchiveName(code, version))) != Join(dir', ArchiveName(code', version'))
  {
    var b := BackupPath(Join(dir, ArchiveName(code, version)));
    var a := Join(dir', ArchiveName(code', version'));
    assert a[|a| - 4..] == ArchiveExtension by {
      assert ArchiveName(code', version')[|ArchiveName(code', version')| - 4..] == ArchiveExtension;
    }
    assert b[|b| - 4..] == BackupExtension;
  }

  /** For codes without a dash, distinct (code, version) pairs name distinct archives. */
  lemma {:induction false} ArchiveNameInjective(code: string, version: string, code': string, version': string)
    requires '-' !in code && '-' !in code'
    requires ArchiveName(code, version) == ArchiveName(code', version')
    ensures code == code' && version == version'
  {
    var n := ArchiveName(code, version);
    assert n[|code|] == '-' && n[|code'|] == '-';
    assert forall j :: 0 <= j < |code| ==> n[j] == code[j] != '-';
    assert forall j :: 0 <= j < |code'| ==> n[j] == code'[j] != '-';
    assert code == n[..|code|] == code';
    assert version == n[|code| + 1..|n| - 4] == version';
  }
}
