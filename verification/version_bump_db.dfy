/** The database-backed release script: read the stored version, bump it (or
    create the default one), write it back, and generate the version module
    from the value written. The backend's answers are inputs; every path ends
    the process with exit code 0. */
module VersionBumpDb {
  import opened Wrappers
  import opened Version
  import opened Decimal

  /** The version created when none is stored. */
  const DefaultVersion: string := "1.0.3"

  const VersionKey: string := "version"
  const VersionDescription: string := "Application version"

  /** The single-row lookup of the version key: an error (including "no
      row"), nothing, or the row, whose value column may be null. */
  datatype Lookup = LookupError | NoRow | Row(value: Option<string>)

  datatype DbWrite =
    | InsertVersion(key: string, value: string, description: string)
    | UpdateVersion(key: string, value: string)

  function WrittenValue(w: DbWrite): string {
    match w
    case InsertVersion(_, value, _) => value
    case UpdateVersion(_, value) => value
  }

  /** One run: the write attempted (if any), the `APP_VERSION` of the
      generated module (if one was generated), and the exit code. */
  datatype DbRun = DbRun(write: Option<DbWrite>, versionFile: Option<string>, exitCode: int)

  /** `keyPresent` says whether the backend key is configured; `writeOk`
      whether the insert or update succeeded. */
  function Run(keyPresent: bool, lookup: Lookup, writeOk: bool): (r: DbRun)
    ensures r.exitCode == 0
    ensures !keyPresent ==> r.write.None? && r.versionFile.None?
    ensures keyPresent && lookup in {LookupError, NoRow} ==>
              r.write == Some(InsertVersion(VersionKey, DefaultVersion, VersionDescription))
    ensures keyPresent && lookup.Row? && lookup.value.Some? ==>
              r.write == Some(UpdateVersion(VersionKey, Bump(lookup.value.value)))
    ensures keyPresent && lookup == Row(None) ==> r.write.None? && r.versionFile.None?
    ensures r.versionFile.Some? <==> r.write.Some? && writeOk
    ensures r.versionFile.Some? ==> r.versionFile.value == WrittenValue(r.write.value)
  {
    if !keyPresent then DbRun(None, None, 0)
    else
      var write :=
        match lookup
        case Row(Some(stored)) => Some(UpdateVersion(VersionKey, Bump(stored)))
        case Row(None) => None
        case _ => Some(InsertVersion(VersionKey, DefaultVersion, VersionDescription));
      match write
      case None => DbRun(None, None, 0)
      case Some(w) => DbRun(write, if writeOk then Some(WrittenValue(w)) else None, 0)
  }

  /** With a stored "M.m.p" the run writes, and generates, "M.m.(p+1)". */
  lemma StoredVersionIsBumped(major: nat, minor: nat, patch: nat)
    ensures var r := Run(true, Row(Some(Format(major, minor, patch))), true);
            r.write == Some(UpdateVersion(VersionKey, Format(major, minor, patch + 1)))
            && r.versionFile == Some(Format(major, minor, patch + 1))
  {
    BumpFormat(major, minor, patch);
  }

  /** The default version is itself well formed, so the next run bumps it to
      1.0.4. */
  lemma DefaultThenBump()
    ensures DefaultVersion == Format(1, 0, 3)
    ensures Run(true, Row(Some(DefaultVersion)), true).versionFile == Some(Format(1, 0, 4))
  {
    DefaultIsFormat();
    StoredVersionIsBumped(1, 0, 3);
  }

  lemma DefaultIsFormat()
    ensures DefaultVersion == Format(1, 0, 3)
  {
    assert Show(1) == "1" && Show(0) == "0" && Show(3) == "3";
  }
}
