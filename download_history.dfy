/**
 * The download history page: the file name shown for a stored path and the
 * search filter over the list.
 */
module DownloadHistory {
  import opened Common
  import opened Strings

  /** A row of the download history: the saved file and the account it was downloaded for. */
  datatype Download = Download(id: int, filePath: string, accountEmail: string)

  /** The path separators of either platform. */
  const Separators: set<char> := {'/', '\\'}

  /** `filePath.split(/[/\\]/).pop() || filePath`: the last segment, or the whole path when that is empty. */
  function FileName(filePath: string): (name: string)
    ensures name == filePath || forall i :: 0 <= i < |name| ==> name[i] !in Separators
    ensures name != "" || filePath == ""
  {
    var segments := Split(filePath, Separators);
    var last := segments[|segments| - 1];
    if last == "" then filePath else last
  }

  /** A path without a separator is its own file name. */
  lemma FileNameNoSeparator(filePath: string)
    requires forall i :: 0 <= i < |filePath| ==> filePath[i] !in Separators
    ensures FileName(filePath) == filePath
  {
    SplitNoSeparator(filePath, Separators);
  }

  /** The file name is what follows the last separator. */
  lemma FileNameAfterLastSeparator(dir: string, sep: char, name: string)
    requires sep in Separators && name != ""
    requires forall i :: 0 <= i < |name| ==> name[i] !in Separators
    ensures FileName(dir + [sep] + name) == name
  {
    SplitLastPiece(dir, sep, name, Separators);
    FileNameIsLastPiece(dir + [sep] + name);
  }

  /** A non-empty last segment is the file name. */
  lemma FileNameIsLastPiece(filePath: string)
    ensures var segments := Split(filePath, Separators);
            segments[|segments| - 1] != "" ==> FileName(filePath) == segments[|segments| - 1]
  {
  }

  /** A path ending in a separator has an empty last segment, so the whole path is shown. */
  lemma FileNameTrailingSeparator(dir: string, sep: char)
    requires sep in Separators
    ensures FileName(dir + [sep]) == dir + [sep]
  {
    SplitLastPiece(dir, sep, "", Separators);
    assert dir + [sep] + "" == dir + [sep];
  }

  /** Whether a row matches the search: its file name, its path or its account's e-mail includes it, ignoring ASCII case. */
  predicate MatchesSearch(d: Download, search: string)
    ensures search == "" ==> MatchesSearch(d, search)
  {
    var needle := Lower(search);
    Contains(Lower(FileName(d.filePath)), needle) || Contains(Lower(d.filePath), needle) || Contains(Lower(d.accountEmail), needle)
  }

  /** A search longer than the path and the e-mail matches nothing. */
  lemma LongSearchMatchesNothing(d: Download, search: string)
    requires |search| > |d.filePath| && |search| > |d.accountEmail|
    ensures !MatchesSearch(d, search)
  {
    var needle := Lower(search);
    FileNameLength(d.filePath);
    if Contains(Lower(FileName(d.filePath)), needle) { ContainsLength(Lower(FileName(d.filePath)), needle); }
    if Contains(Lower(d.filePath), needle) { ContainsLength(Lower(d.filePath), needle); }
    if Contains(Lower(d.accountEmail), needle) { ContainsLength(Lower(d.accountEmail), needle); }
  }

  /** The file name is no longer than its path. */
  lemma FileNameLength(filePath: string)
    ensures |FileName(filePath)| <= |filePath|
  {
    SplitSuffix(filePath, Separators);
  }

  /** `filteredData`: the data (or nothing) for an empty search, else the matching rows in order; the search is not trimmed. */
  function FilteredDownloads(data: Option<seq<Download>>, search: string): (r: seq<Download>)
    ensures data.None? ==> r == []
    ensures data.Some? && search == "" ==> r == data.value
    ensures data.Some? && search != "" ==>
              |r| <= |data.value| && forall d :: d in r <==> d in data.value && MatchesSearch(d, search)
  {
    if data.None? || search == "" then (if data.Some? then data.value else [])
    else Filter(data.value, d => MatchesSearch(d, search))
  }

  /** The file name adds nothing the path does not match already. */
  lemma FileNameMatchIsPathMatch(d: Download, search: string)
    ensures MatchesSearch(d, search) <==> Contains(Lower(d.filePath), Lower(search)) || Contains(Lower(d.accountEmail), Lower(search))
  {
    var name := FileName(d.filePath);
    if name != d.filePath && Contains(Lower(name), Lower(search)) {
      var segments := Split(d.filePath, Separators);
      SplitSuffix(d.filePath, Separators);
      var k := |d.filePath| - |name|;
      assert d.filePath[k..] == name;
      LowerSuffix(d.filePath, k);
      SuffixContains(Lower(d.filePath), k, Lower(search));
    }
  }

  /** The last piece of a split is a suffix of the text. */
  lemma {:induction false} SplitSuffix(s: string, seps: set<char>)
    ensures var r := Split(s, seps); |r[|r| - 1]| <= |s| && s[|s| - |r[|r| - 1]|..] == r[|r| - 1]
    ensures var r := Split(s, seps); |r| == 1 ==> r[0] == s
    decreases |s|
  {
    if |s| > 0 {
      SplitSuffix(s[1..], seps);
      var rest := Split(s[1..], seps);
      var last := rest[|rest| - 1];
      if s[0] in seps {
        SplitAfterSeparator(s, seps);
      } else {
        SplitJoinsFirst(s, seps);
      }
      if s[0] in seps || |rest| > 1 {
        assert s[|s| - |last|..] == s[1..][|s| - 1 - |last|..];
      } else {
        assert [s[0]] + s[1..] == s;
      }
    }
  }

  /** After a separator, the last piece of a split is that of the rest of the text. */
  lemma SplitAfterSeparator(s: string, seps: set<char>)
    requires |s| > 0 && s[0] in seps
    ensures var r, rest := Split(s, seps), Split(s[1..], seps); |r| > 1 && r[|r| - 1] == rest[|rest| - 1]
  {
    assert Split(s, seps) == [""] + Split(s[1..], seps);
  }

  /** A character that is not a separator joins the first piece of the rest of the text. */
  lemma SplitJoinsFirst(s: string, seps: set<char>)
    requires |s| > 0 && s[0] !in seps
    ensures var r, rest := Split(s, seps), Split(s[1..], seps);
            |r| == |rest| && r[0] == [s[0]] + rest[0] && (|r| > 1 ==> r[|r| - 1] == rest[|rest| - 1])
  {
  }

  /** Lower-casing commutes with taking a suffix. */
  lemma LowerSuffix(s: string, k: nat)
    requires k <= |s|
    ensures Lower(s)[k..] == Lower(s[k..])
  {
  }

  /** A text contains what its suffix contains. */
  lemma {:induction false} SuffixContains(s: string, k: nat, t: string)
    requires k <= |s| && Contains(s[k..], t)
    ensures Contains(s, t)
    decreases k
  {
    if k > 0 {
      assert s[1..][k - 1..] == s[k..];
      SuffixContains(s[1..], k - 1, t);
    }
  }
}
