/** The MySQL driver base: choosing the platform from a server version
    string, and the database name of a connection. */
module MySQLDriver {
  import opened Base
  import opened Errors
  import opened Platform

  // ---------------------------------------------------------------------
  // Reading a server version

  /** The leading run of digits of s. */
  function LeadingDigits(s: string): (d: string)
    ensures |d| == DigitRun(s) && d == s[..|d|]
    ensures forall i :: 0 <= i < |d| ==> IsDigit(d[i])
  {
    s[..DigitRun(s)]
  }

  /** What follows a leading digit run, when s starts with `.` and a digit:
      the optional `(?:\.(\d+)...)?` group of the version pattern. */
  predicate DotNumber(s: string) {
    |s| >= 2 && s[0] == '.' && IsDigit(s[1])
  }

  /** The major, minor and patch numbers matched by
      `^(\d+)(?:\.(\d+)(?:\.(\d+))?)?`, an unmatched minor or patch
      reading as "0". */
  function Components(version: string): (r: (string, string, string))
    requires DigitRun(version) > 0
    ensures |r.0| > 0 && |r.1| > 0 && |r.2| > 0
    ensures forall i :: 0 <= i < |r.0| ==> IsDigit(r.0[i])
    ensures forall i :: 0 <= i < |r.1| ==> IsDigit(r.1[i])
    ensures forall i :: 0 <= i < |r.2| ==> IsDigit(r.2[i])
  {
    var major := LeadingDigits(version);
    var rest := version[|major|..];
    if !DotNumber(rest) then (major, "0", "0")
    else
      var minor := LeadingDigits(rest[1..]);
      var rest2 := rest[1 + |minor|..];
      if !DotNumber(rest2) then (major, minor, "0")
      else (major, minor, LeadingDigits(rest2[1..]))
  }

  // ---------------------------------------------------------------------
  // version_compare on versions made of digits and dots

  /** The numeric value of a version part (its leading digits). */
  function PartValue(s: string): nat {
    DigitsValue(LeadingDigits(s))
  }

  /** Part-by-part numeric comparison; when one version runs out first,
      the longer (numeric) one is the newer. */
  function CompareParts(a: seq<string>, b: seq<string>): (c: int)
    ensures -1 <= c <= 1
  {
    if |a| == 0 && |b| == 0 then 0
    else if |a| == 0 then -1
    else if |b| == 0 then 1
    else if PartValue(a[0]) < PartValue(b[0]) then -1
    else if PartValue(a[0]) > PartValue(b[0]) then 1
    else CompareParts(a[1..], b[1..])
  }

  /** version_compare(a, b) for strings of digits and dots. */
  function VersionCompare(a: string, b: string): int {
    CompareParts(Split(a, '.'), Split(b, '.'))
  }

  // ---------------------------------------------------------------------
  // Platform selection

  /** `createDatabasePlatformForVersion`. */
  function CreateDatabasePlatformForVersion(version: string): (r: Result<Variant, Error>)
    ensures r.Err? <==> DigitRun(version) == 0
    ensures r.Err? ==> r.error == InvalidPlatformVersionSpecified(version)
    ensures r.Ok? && Contains(Lower(version), "mariadb") ==> r.value == MySqlBase
  {
    if DigitRun(version) == 0 then Err(InvalidPlatformVersionSpecified(version))
    else if Contains(Lower(version), "mariadb") then Ok(MySqlBase)
    else
      var (major, minor, patch) := Components(version);
      if VersionCompare(major + "." + minor + "." + patch, "5.7") >= 0 then Ok(MySql57)
      else Ok(MySqlBase)
  }

  /** A version of three parts compares with 5.7 by its major and minor
      numbers alone: its patch part only makes it the longer version. */
  lemma {:induction false} CompareWith57(major: string, minor: string, patch: string)
    requires '.' !in major && '.' !in minor && '.' !in patch
    ensures VersionCompare(major + "." + minor + "." + patch, "5.7") >= 0
      <==> PartValue(major) > 5 || (PartValue(major) == 5 && PartValue(minor) >= 7)
  {
    SplitThree(major, minor, patch);
    SplitFiveSeven();
    var a := [major, minor, patch];
    var b := ["5", "7"];
    assert a[1..] == [minor, patch] && b[1..] == ["7"];
    assert a[1..][1..] == [patch] && b[1..][1..] == [];
    assert CompareParts(a[1..][1..], b[1..][1..]) == 1;
    assert CompareParts(a[1..], b[1..]) >= 0 <==> PartValue(minor) >= 7;
    assert VersionCompare(major + "." + minor + "." + patch, "5.7") == CompareParts(a, b);
  }

  lemma SplitThree(major: string, minor: string, patch: string)
    requires '.' !in major && '.' !in minor && '.' !in patch
    ensures Split(major + "." + minor + "." + patch, '.') == [major, minor, patch]
  {
    var parts := [major, minor, patch];
    assert Join(parts[2..], ".") == patch;
    assert Join(parts[1..], ".") == minor + "." + patch;
    assert Join(parts, ".") == major + "." + minor + "." + patch;
    SplitJoin(parts, '.');
  }

  lemma SplitFiveSeven()
    ensures Split("5.7", '.') == ["5", "7"]
    ensures PartValue("5") == 5 && PartValue("7") == 7
  {
    var seven := ["5", "7"];
    assert Join(seven, ".") == "5.7";
    SplitJoin(seven, '.');
    assert LeadingDigits("5") == "5";
    assert LeadingDigits("7") == "7";
  }

  /** The MySQL 5.7 platform is chosen exactly for versions that start
      with digits, do not mention MariaDB, and whose major.minor is at
      least 5.7 (a missing minor counting as 0). */
  lemma PlatformFor57(version: string)
    ensures CreateDatabasePlatformForVersion(version) == Ok(MySql57) <==>
      DigitRun(version) > 0 && !Contains(Lower(version), "mariadb") &&
      var (major, minor, _) := Components(version);
      PartValue(major) > 5 || (PartValue(major) == 5 && PartValue(minor) >= 7)
  {
    if DigitRun(version) > 0 && !Contains(Lower(version), "mariadb") {
      var (major, minor, patch) := Components(version);
      NoDot(major);
      NoDot(minor);
      NoDot(patch);
      CompareWith57(major, minor, patch);
    }
  }

  /** Digit strings hold no dot. */
  lemma NoDot(s: string)
    requires forall i :: 0 <= i < |s| ==> IsDigit(s[i])
    ensures '.' !in s
  {
  }

  /** Without minor or patch parts, both read as 0; with a minor part but
      no patch part, the minor part is read and the patch reads as 0. */
  lemma MissingPartsReadZero(version: string)
    requires DigitRun(version) > 0
    ensures !DotNumber(version[DigitRun(version)..]) ==> Components(version).1 == "0" && Components(version).2 == "0"
    ensures var rest := version[DigitRun(version)..];
      DotNumber(rest) && !DotNumber(rest[1 + DigitRun(rest[1..])..]) ==>
        Components(version).1 == LeadingDigits(rest[1..]) && Components(version).2 == "0"
    ensures PartValue("0") == 0
  {
    assert LeadingDigits("0") == "0";
  }

  // ---------------------------------------------------------------------
  // The database name

  /** `getDatabase`: the configured database name when the `dbname`
      parameter is set; otherwise what `SELECT DATABASE()` answered,
      passed in as `selected`. */
  function GetDatabase(params: map<string, string>, selected: string): (r: string)
    ensures "dbname" in params ==> r == params["dbname"]
    ensures "dbname" !in params ==> r == selected
  {
    if "dbname" in params then params["dbname"] else selected
  }

  /** With `dbname` set the answer does not depend on the server. */
  lemma GetDatabaseIgnoresServer(params: map<string, string>, s1: string, s2: string)
    requires "dbname" in params
    ensures GetDatabase(params, s1) == GetDatabase(params, s2)
  {
  }
}
