/**
 * The two pure helpers of the system IPC handler: guessing where Chrome is
 * installed, and checking a user-given executable path. The file system is
 * given as the predicates `present` (`existsSync`) and `isFile` (`statSync().isFile()`).
 */
module SystemHandler {
  import opened Common
  import opened Strings

  /** `process.platform`; only three platforms have candidate paths. */
  datatype Platform = Win32 | Darwin | Linux | OtherPlatform(name: string)

  const ProgramFiles := "C:\\Program Files\\Google\\Chrome\\Application"
  const ProgramFilesX86 := "C:\\Program Files (x86)\\Google\\Chrome\\Application"
  const MacOSDir := "/Applications/Google Chrome.app/Contents/MacOS"

  /** The install locations tried on each platform, in the order they are tried. */
  function Candidates(p: Platform): (paths: seq<string>)
    ensures p.OtherPlatform? <==> paths == []
  {
    match p
    case Win32 => [ProgramFiles + ['\\'] + "chrome.exe", ProgramFilesX86 + ['\\'] + "chrome.exe"]
    case Darwin => [MacOSDir + ['/'] + "Google Chrome"]
    case Linux => ["/usr/bin" + ['/'] + "google-chrome"]
    case OtherPlatform(_) => []
  }

  /** The first path of `paths` that exists. */
  function FirstExisting(paths: seq<string>, present: string -> bool): (r: Option<string>)
    ensures r.None? <==> forall i :: 0 <= i < |paths| ==> !present(paths[i])
    ensures r.Some? ==> exists i :: 0 <= i < |paths| && paths[i] == r.value && present(paths[i])
                                    && forall j :: 0 <= j < i ==> !present(paths[j])
    decreases |paths|
  {
    if |paths| == 0 then None
    else if present(paths[0]) then Some(paths[0])
    else
      var r := FirstExisting(paths[1..], present);
      if r.Some? then
        var i :| 0 <= i < |paths| - 1 && paths[1..][i] == r.value && present(paths[1..][i])
                 && forall j :: 0 <= j < i ==> !present(paths[1..][j]);
        assert paths[i + 1] == r.value && forall j :: 0 <= j < i + 1 ==> !present(paths[j]);
        r
      else r
  }

  /** `guessChromeExecutablePath`: the first existing candidate of the platform, or undefined. */
  function GuessChromeExecutablePath(p: Platform, present: string -> bool): (r: Option<string>)
    ensures r.Some? ==> r.value in Candidates(p) && present(r.value)
    ensures r.None? <==> forall c :: c in Candidates(p) ==> !present(c)
  {
    FirstExisting(Candidates(p), present)
  }

  /** On Windows the 64-bit location wins over the 32-bit one whenever it exists. */
  lemma Win32PrefersProgramFiles(present: string -> bool)
    requires present(Candidates(Win32)[0])
    ensures GuessChromeExecutablePath(Win32, present) == Some(ProgramFiles + ['\\'] + "chrome.exe")
  {
  }

  /** The 32-bit location is reported only when the 64-bit one does not exist. */
  lemma Win32FallsBack(present: string -> bool)
    requires !present(Candidates(Win32)[0]) && present(Candidates(Win32)[1])
    ensures GuessChromeExecutablePath(Win32, present) == Some(ProgramFilesX86 + ['\\'] + "chrome.exe")
  {
    var r := GuessChromeExecutablePath(Win32, present);
    assert r.Some?;
  }

  /** The path separators `path.basename` recognises on the platform. */
  function Separators(p: Platform): set<char> {
    if p == Win32 then {'/', '\\'} else {'/'}
  }

  /** `s` without the separators it ends with. */
  function DropTrailing(s: string, seps: set<char>): (r: string)
    ensures IsPrefix(r, s)
    ensures r == [] || r[|r| - 1] !in seps
    decreases |s|
  {
    if |s| > 0 && s[|s| - 1] in seps then DropTrailing(s[..|s| - 1], seps) else s
  }

  /** `path.basename`: the last segment, ignoring trailing separators. */
  function Basename(path: string, seps: set<char>): (r: string)
    ensures forall i :: 0 <= i < |r| ==> r[i] !in seps
  {
    var parts := Split(DropTrailing(path, seps), seps);
    parts[|parts| - 1]
  }

  const MissingPath := "浏览器可执行路径不存在！"
  const NotAFile := "浏览器可执行路径错误（不是文件）！"
  const NotChrome := "浏览器可执行路径错误（非 chrome 命名）！"

  /** What `${path}` prints. */
  function Shown(path: Option<string>): string {
    if path.Some? then path.value else "undefined"
  }

  /** The lower-cased file name mentions chrome. */
  predicate NamedChrome(path: string, p: Platform) {
    Contains(Lower(Basename(path, Separators(p))), "chrome")
  }

  /**
   * `detectBrowserIsExecutable(path)`: the four guards in order, each reporting
   * the path after its message; the first that fails decides the error.
   */
  function DetectBrowserIsExecutable(path: Option<string>, present: string -> bool, isFile: string -> bool, p: Platform)
    : (r: Result<bool, string>)
    ensures r.Ok? <==> path.Some? && path.value != "" && present(path.value) && isFile(path.value) && NamedChrome(path.value, p)
    ensures r.Ok? ==> r.value
    ensures path.None? || path.value == "" ==> r == Err(MissingPath + Shown(path))
    ensures path.Some? && path.value != "" && !present(path.value) ==> r == Err(MissingPath + path.value)
    ensures path.Some? && path.value != "" && present(path.value) && !isFile(path.value) ==> r == Err(NotAFile + path.value)
    ensures path.Some? && path.value != "" && present(path.value) && isFile(path.value) && !NamedChrome(path.value, p) ==>
              r == Err(NotChrome + path.value)
  {
    if path.None? || path.value == "" then Err(MissingPath + Shown(path))
    else if !present(path.value) then Err(MissingPath + path.value)
    else if !isFile(path.value) then Err(NotAFile + path.value)
    else if !NamedChrome(path.value, p) then Err(NotChrome + path.value)
    else Ok(true)
  }

  /** The file name of a path is the part after its last separator. */
  lemma BasenameOf(dir: string, sep: char, name: string, seps: set<char>)
    requires sep in seps && |name| > 0 && name[|name| - 1] !in seps
    requires forall i :: 0 <= i < |name| ==> name[i] !in seps
    ensures Basename(dir + [sep] + name, seps) == name
  {
    var s := dir + [sep] + name;
    assert s[|s| - 1] == name[|name| - 1];
    assert DropTrailing(s, seps) == s;
    SplitLastPiece(dir, sep, name, seps);
  }

  /** Each candidate of a platform is named like chrome there. */
  lemma CandidateNamedChrome(p: Platform, path: string)
    requires path in Candidates(p)
    ensures NamedChrome(path, p)
  {
    if p == Win32 {
      var dir := if path == Candidates(Win32)[0] then ProgramFiles else ProgramFilesX86;
      assert "" + "chrome" + ".exe" == "chrome.exe";
      ChromeFileNamedChrome(dir, '\\', "", "chrome", ".exe", p);
    } else if p == Darwin {
      assert "Google " + "Chrome" + "" == "Google Chrome";
      ChromeFileNamedChrome(MacOSDir, '/', "Google ", "Chrome", "", p);
    } else {
      assert "google-" + "chrome" + "" == "google-chrome";
      ChromeFileNamedChrome("/usr/bin", '/', "google-", "chrome", "", p);
    }
  }

  /** A file named `a`, then "chrome" in any case, then `b`, in any directory, is named like chrome. */
  lemma ChromeFileNamedChrome(dir: string, sep: char, a: string, c: string, b: string, p: Platform)
    requires sep in Separators(p) && (c == "chrome" || c == "Chrome")
    requires forall i :: 0 <= i < |a| ==> a[i] !in Separators(p)
    requires forall i :: 0 <= i < |b| ==> b[i] !in Separators(p)
    ensures NamedChrome(dir + [sep] + (a + c + b), p)
  {
    var name := a + c + b;
    forall i | 0 <= i < |name| ensures name[i] !in Separators(p) {
      if i >= |a| + |c| {
        assert name[i] == b[i - |a| - |c|];
      } else if i < |a| {
        assert name[i] == a[i];
      }
    }
    BasenameOf(dir, sep, name, Separators(p));
    ChromeInName(a, b);
  }

  /** A name made of `a`, then "chrome" in any case, then `b`, mentions chrome once lower-cased. */
  lemma ChromeInName(a: string, b: string)
    ensures Contains(Lower(a + "chrome" + b), "chrome")
      && Contains(Lower(a + "Chrome" + b), "chrome")
  {
    assert Lower(a + "chrome" + b) == Lower(a) + "chrome" + Lower(b);
    assert Lower(a + "Chrome" + b) == Lower(a) + "chrome" + Lower(b);
    ContainsInfix(Lower(a), "chrome", Lower(b));
  }

  /** Whatever the platform guesses, the guess passes the check when it is a file. */
  lemma GuessPassesCheck(p: Platform, present: string -> bool, isFile: string -> bool)
    requires GuessChromeExecutablePath(p, present).Some?
    requires isFile(GuessChromeExecutablePath(p, present).value)
    ensures DetectBrowserIsExecutable(GuessChromeExecutablePath(p, present), present, isFile, p) == Ok(true)
  {
    CandidateNamedChrome(p, GuessChromeExecutablePath(p, present).value);
  }
}
