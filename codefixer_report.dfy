/**
 * The issue collector of php-code-fixer: a titled report that files each
 * issue under the PHP version it concerns, after cutting a configured
 * leading part off the issue's file path.
 */
module CodeFixerReport {
  import opened Wrappers

  /** One stored issue, the list `[$type, $text, $replacement, $file, $line]`. */
  datatype Issue = Issue(issueType: string, text: string, replacement: Option<string>, file: string, line: int)

  /** ASCII lower-casing of one character, as `strncasecmp` compares. */
  function LowerAscii(c: char): char {
    if 'A' <= c <= 'Z' then (c as int + 32) as char else c
  }

  /**
   * `strncasecmp($file, $prefix, strlen($prefix)) === 0`: the file is at
   * least as long as the prefix and agrees with it, ignoring ASCII case, on
   * the prefix's length.
   */
  predicate StartsWithIgnoringCase(file: string, prefix: string) {
    |prefix| <= |file| && forall i :: 0 <= i < |prefix| ==> LowerAscii(file[i]) == LowerAscii(prefix[i])
  }

  /**
   * The file name `add` stores: without its first `|p|` characters when a
   * removable path `p` is set and the file starts with it, ignoring case;
   * verbatim otherwise.  The result is always a suffix of the file.
   */
  function StoredFile(removablePath: Option<string>, file: string): (r: string)
    ensures |r| <= |file| && r == file[|file| - |r|..]
    ensures removablePath.None? ==> r == file
    ensures removablePath.Some? && StartsWithIgnoringCase(file, removablePath.value) ==>
      |r| == |file| - |removablePath.value|
    ensures removablePath.Some? && !StartsWithIgnoringCase(file, removablePath.value) ==> r == file
  {
    match removablePath
    case Some(prefix) =>
      if StartsWithIgnoringCase(file, prefix) then file[|prefix|..] else file
    case None => file
  }

  /** A file under the removable path, written in any ASCII case, is stored relative to it. */
  lemma StoredFileRelative(prefix: string, spelled: string, rest: string)
    requires |spelled| == |prefix|
    requires forall i :: 0 <= i < |prefix| ==> LowerAscii(spelled[i]) == LowerAscii(prefix[i])
    ensures StoredFile(Some(prefix), spelled + rest) == rest
  {
    var file := spelled + rest;
    assert forall i :: 0 <= i < |prefix| ==> file[i] == spelled[i];
    assert StartsWithIgnoringCase(file, prefix);
    assert file[|prefix|..] == rest;
  }

  /** A file shorter than the removable path never matches it and is stored verbatim. */
  lemma ShortFileVerbatim(prefix: string, file: string)
    requires |file| < |prefix|
    ensures StoredFile(Some(prefix), file) == file
  {
  }

  /** The list of issues filed under `version`, empty when there are none yet. */
  function IssuesOf(records: map<string, seq<Issue>>, version: string): seq<Issue> {
    if version in records then records[version] else []
  }

  class Report {
    var records: map<string, seq<Issue>>
    const title: string
    const removablePath: Option<string>

    constructor (reportTitle: string, removablePath: Option<string>)
      ensures records == map[] && title == reportTitle && this.removablePath == removablePath
    {
      records := map[];
      title := reportTitle;
      this.removablePath := removablePath;
    }

    /**
     * Appends one issue at the end of the list for `version`; every earlier
     * issue and every other version's list stay as they were.
     */
    method Add(version: string, issueType: string, text: string, replacement: Option<string>, file: string, line: int)
      modifies this
      ensures records == old(records)[version := IssuesOf(old(records), version) +
        [Issue(issueType, text, replacement, StoredFile(removablePath, file), line)]]
      ensures forall v :: v in old(records) && v != version ==> v in records && records[v] == old(records)[v]
      ensures records.Keys == old(records).Keys + {version}
    {
      var stored := file;
      if removablePath.Some? && StartsWithIgnoringCase(file, removablePath.value) {
        stored := file[|removablePath.value|..];
      }
      records := records[version := IssuesOf(records, version) + [Issue(issueType, text, replacement, stored, line)]];
    }

    /** All issues, by version; reading them changes nothing. */
    method GetIssues() returns (issues: map<string, seq<Issue>>)
      ensures issues == records
    {
      issues := records;
    }

    method GetTitle() returns (t: string)
      ensures t == title
    {
      t := title;
    }
  }
}
