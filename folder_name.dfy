/** The name of the Drive folder a run creates: the `--name` value, or else the
    directory's own name (main.py:137), joined to the run's timestamp by an
    underscore and sanitised (main.py:85-86). The clock is not modelled: the
    timestamp comes in as a string. */
module DriveFolder {
  import opened Types
  import opened FileNames

  /** The `--name` value, or the directory's name when it is absent; an empty
      `--name` counts as absent, since the empty string is false in Python
      (main.py:137). */
  function BaseName(name: Option<string>, dirName: string): string {
    if name.Some? && name.value != [] then name.value else dirName
  }

  /** The base name, an underscore and the timestamp, sanitised as one string
      (main.py:86). */
  function FolderName(base: string, stamp: string): (r: string)
    ensures |r| == |base| + 1 + |stamp|
    ensures r[|base|] == '_'
    ensures IsClean(r)
  {
    SanitizeIsClean(base + "_" + stamp);
    Sanitize(base + "_" + stamp)
  }

  predicate IsDigit(c: char) {
    '0' <= c <= '9'
  }

  /** The characters the timestamp of main.py:85 is made of. */
  predicate IsStampChar(c: char) {
    IsDigit(c) || c == '-' || c == '_'
  }

  /** The shape `DD-MM-YYYY_HH-MM-SS` of the timestamp at main.py:85, for years
      of four digits. */
  predicate IsTimestamp(s: string) {
    && |s| == 19
    && s[2] == '-' && s[5] == '-' && s[10] == '_' && s[13] == '-' && s[16] == '-'
    && IsDigit(s[0]) && IsDigit(s[1]) && IsDigit(s[3]) && IsDigit(s[4])
    && IsDigit(s[6]) && IsDigit(s[7]) && IsDigit(s[8]) && IsDigit(s[9])
    && IsDigit(s[11]) && IsDigit(s[12]) && IsDigit(s[14]) && IsDigit(s[15])
    && IsDigit(s[17]) && IsDigit(s[18])
  }

  lemma TimestampIsClean(s: string)
    requires forall i :: 0 <= i < |s| ==> IsStampChar(s[i])
    ensures IsClean(s)
  {
    forall i | 0 <= i < |s| ensures !IsIllegal(s[i]) {
      assert IsStampChar(s[i]);
    }
  }

  /** The folder name is the sanitised base, an underscore and the sanitised stamp. */
  lemma FolderNameSplits(base: string, stamp: string)
    ensures FolderName(base, stamp) == Sanitize(base) + "_" + Sanitize(stamp)
  {
    SanitizeConcat(base, "_" + stamp);
    SanitizeConcat("_", stamp);
    assert Sanitize("_") == "_";
  }

  /** A stamp made of digits, `-` and `_` comes through as the suffix unchanged,
      and the rest is the sanitised base name. */
  lemma StampSurvives(base: string, stamp: string)
    requires forall i :: 0 <= i < |stamp| ==> IsStampChar(stamp[i])
    ensures FolderName(base, stamp) == Sanitize(base) + "_" + stamp
    ensures FolderName(base, stamp)[|base| + 1..] == stamp
  {
    FolderNameSplits(base, stamp);
    TimestampIsClean(stamp);
    SanitizeFixesExactlyClean(stamp);
  }

  /** In particular the timestamp main.py:85 writes survives. */
  lemma TimestampSurvives(base: string, stamp: string)
    requires IsTimestamp(stamp)
    ensures FolderName(base, stamp) == Sanitize(base) + "_" + stamp
  {
    forall i | 0 <= i < |stamp| ensures IsStampChar(stamp[i]) {
      assert i in {0, 1, 2, 3, 4, 5, 6, 7, 8, 9, 10, 11, 12, 13, 14, 15, 16, 17, 18};
    }
    StampSurvives(base, stamp);
  }

  /** An illegal character in the chosen base name becomes `_`, every other
      character stays as it is: `--name a/b:c` gives `a_b_c_<timestamp>`. */
  lemma ExampleFolderName(dirName: string, stamp: string)
    requires IsTimestamp(stamp)
    ensures FolderName(BaseName(Some("a/b:c"), dirName), stamp) == "a_b_c_" + stamp
  {
    assert BaseName(Some("a/b:c"), dirName) == "a/b:c";
    TimestampSurvives("a/b:c", stamp);
    ExampleBase();
  }

  lemma ExampleBase()
    ensures Sanitize("a/b:c") == "a_b_c"
  {
    var s := Sanitize("a/b:c");
    assert s[0] == 'a' && s[1] == '_' && s[2] == 'b' && s[3] == '_' && s[4] == 'c';
  }
}
