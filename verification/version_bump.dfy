/** The package-file release script: bump the package version, write the
    same string into the generated version module, and log the change. File
    reads and writes are left to the caller; the build date is not modelled. */
module VersionBump {
  import opened Version

  /** What one run produces: the package's new version, the `APP_VERSION` of
      the generated module, and the summary log line. */
  datatype BumpRun = BumpRun(packageVersion: string, appVersion: string, logLine: string)

  function LogLine(from: string, to: string): string {
    "✅ Version bumped: " + from + " → " + to
  }

  /** The log line as the script prints it: the package object's version is
      read after it was overwritten with the new one. */
  function AsWrittenLogLine(oldVersion: string): (line: string)
    ensures line == CorrectedRun(oldVersion).logLine <==> Bump(oldVersion) == oldVersion
  {
    var newVersion := Bump(oldVersion);
    var packageVersion := newVersion;
    if newVersion != oldVersion then
      LogLinesDiffer(newVersion, oldVersion, newVersion);
      LogLine(packageVersion, newVersion)
    else LogLine(packageVersion, newVersion)
  }

  /** For any well-formed version the printed line never names the version
      the run started from: both sides show the new one. */
  lemma LogHidesOldVersion(major: nat, minor: nat, patch: nat)
    ensures AsWrittenLogLine(Format(major, minor, patch))
              == LogLine(Format(major, minor, patch + 1), Format(major, minor, patch + 1))
    ensures AsWrittenLogLine(Format(major, minor, patch))
              != LogLine(Format(major, minor, patch), Format(major, minor, patch + 1))
  {
    var before, after := Format(major, minor, patch), Format(major, minor, patch + 1);
    BumpFormat(major, minor, patch);
    BumpChanges(major, minor, patch);
    LogLinesDiffer(after, before, after);
  }

  /** Two log lines with the same new version but different left-hand
      versions differ. */
  lemma LogLinesDiffer(a: string, b: string, to: string)
    requires a != b
    ensures LogLine(a, to) != LogLine(b, to)
  {
    var prefix := "✅ Version bumped: ";
    var arrow := " → " + to;
    assert LogLine(a, to) == prefix + a + arrow;
    assert LogLine(b, to) == prefix + b + arrow;
    if |a| == |b| {
      assert (prefix + a + arrow)[|prefix|..|prefix| + |a|] == a;
      assert (prefix + b + arrow)[|prefix|..|prefix| + |b|] == b;
    } else {
      assert |prefix + a + arrow| != |prefix + b + arrow|;
    }
  }

  /** The run as evidently intended, with the log line built from the version
      read before the bump; `AsWrittenLogLine` is the line the script really
      prints. */
  function CorrectedRun(oldVersion: string): (r: BumpRun)
    ensures r.packageVersion == r.appVersion
    ensures r.logLine == LogLine(oldVersion, r.packageVersion)
    ensures r.packageVersion == Bump(oldVersion)
  {
    var newVersion := Bump(oldVersion);
    BumpRun(newVersion, newVersion, LogLine(oldVersion, newVersion))
  }

  /** On a well-formed version the corrected run writes "M.m.(p+1)" to both files and
      logs the old and the new version, which differ. */
  lemma RunOnFormat(major: nat, minor: nat, patch: nat)
    ensures var r := CorrectedRun(Format(major, minor, patch));
            && r.packageVersion == Format(major, minor, patch + 1)
            && r.appVersion == Format(major, minor, patch + 1)
            && r.logLine == LogLine(Format(major, minor, patch), Format(major, minor, patch + 1))
            && r.logLine != AsWrittenLogLine(Format(major, minor, patch))
  {
    LogHidesOldVersion(major, minor, patch);
    BumpFormat(major, minor, patch);
  }
}
