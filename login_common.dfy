/**
 * The helpers every login flow shares: the window position derived from a
 * 32-bit rolling hash of the port and the email, the per-account profile
 * folder, the command line that starts Chrome, the bounded probe of the
 * DevTools port and the start of a browser session.
 *
 * The network, the clock and the file system are parameters: `probe(i)` is the
 * outcome of the i-th request to `/json/version`, and `vpnExtension` says
 * whether the VPN extension folder exists.
 */
module LoginCommon {
  import opened Common
  import opened Strings
  import opened JsValue
  import opened Utils
  import opened Base64

  const TwoTo32 := 0x1_0000_0000
  const TwoTo31 := 0x8000_0000

  /** JavaScript's ToInt32: the value modulo 2^32, read as a signed 32-bit integer. */
  function ToInt32(n: int): (r: int)
    ensures -TwoTo31 <= r < TwoTo31
    ensures (r - n) % TwoTo32 == 0
  {
    var m := n % TwoTo32;
    if m >= TwoTo31 then m - TwoTo32 else m
  }

  /** ToInt32 moves its argument by a whole number of 2^32. */
  lemma ToInt32Offset(n: int) returns (k: int)
    ensures ToInt32(n) == n + k * TwoTo32
  {
    var m := n % TwoTo32;
    assert n == (n / TwoTo32) * TwoTo32 + m;
    k := if m >= TwoTo31 then -(n / TwoTo32) - 1 else -(n / TwoTo32);
  }

  /** ToInt32 ignores whole multiples of 2^32. */
  lemma ToInt32Shift(n: int, q: int)
    ensures ToInt32(n + q * TwoTo32) == ToInt32(n)
  {
    var a := n + q * TwoTo32;
    assert a == (n / TwoTo32 + q) * TwoTo32 + n % TwoTo32;
    assert a % TwoTo32 == n % TwoTo32;
  }

  /** One step of the hash loop: `((hash << 5) - hash + code) & 0xffffffff`. */
  function HashStep(hash: int, code: int): (r: int)
    ensures -TwoTo31 <= r < TwoTo31
  {
    var shifted := ToInt32(ToInt32(hash) * 32);
    ToInt32(shifted - hash + code)
  }

  /** The step is multiplication by 31 and addition, wrapped to 32 bits. */
  lemma HashStepIsTimes31(hash: int, code: int)
    ensures HashStep(hash, code) == ToInt32(31 * hash + code)
  {
    var t := ToInt32(hash);
    var k := ToInt32Offset(hash);
    var shifted := ToInt32(t * 32);
    var j := ToInt32Offset(t * 32);
    assert shifted - hash + code == 31 * hash + code + (32 * k + j) * TwoTo32;
    ToInt32Shift(31 * hash + code, 32 * k + j);
  }

  /** The hash of the first characters of the email, starting from the port. */
  function Hash(port: int, email: string): (h: int)
    ensures |email| == 0 ==> h == port
    ensures |email| > 0 ==> -TwoTo31 <= h < TwoTo31
    decreases |email|
  {
    if |email| == 0 then port else HashStep(Hash(port, email[..|email| - 1]), email[|email| - 1] as int)
  }

  function Abs(n: int): nat {
    if n < 0 then -n else n
  }

  /**
   * The left edge of the window for a hash: eight columns 150 apart, clamped at
   * 790, so columns 0 to 4 are distinct and columns 5 to 7 share the clamp.
   */
  function WindowX(hash: int): (x: int)
    ensures x in {50, 200, 350, 500, 650, 790}
    ensures Abs(hash) % 8 <= 4 ==> x == 50 + (Abs(hash) % 8) * 150
    ensures Abs(hash) % 8 >= 5 ==> x == 790
  {
    var x := 50 + (Abs(hash) % 8) * 150;
    if x < 790 then x else 790
  }

  /** The top edge of the window: `hash >> 8` is the floor of hash / 256; six rows 120 apart, clamped at 260. */
  function WindowY(hash: int): (y: int)
    ensures y in {50, 170, 260}
  {
    var y := 50 + (Abs(hash / 256) % 6) * 120;
    if y < 260 then y else 260
  }

  /**
   * `calculateWindowPosition(port, email)`: the hash starts at the port and
   * folds in every character code of a non-empty email.
   */
  method CalculateWindowPosition(port: int, email: Option<string>) returns (x: int, y: int)
    ensures var h := if email.Some? then Hash(port, email.value) else port;
            x == WindowX(h) && y == WindowY(h)
    ensures x in {50, 200, 350, 500, 650, 790} && y in {50, 170, 260}
  {
    var hash := port;
    if email.Some? && email.value != "" {
      var s := email.value;
      for i := 0 to |s|
        invariant hash == Hash(port, s[..i])
      {
        assert s[..i + 1][..i] == s[..i];
        hash := HashStep(hash, s[i] as int);
      }
      assert s[..|s|] == s;
    }
    x := WindowX(hash);
    y := WindowY(hash);
  }

  /** `email.replaceAll('@', '_').replaceAll('.', '_').trim()`: the profile folder of an account. */
  function ProfileFolderName(email: string): (r: string)
    ensures '@' !in r && '.' !in r
    ensures |r| <= |email|
  {
    Trim(ReplaceChar(ReplaceChar(email, '@', '_'), '.', '_'))
  }

  /** The folder name is a fixed point: computing it again changes nothing. */
  lemma ProfileFolderNameIdempotent(email: string)
    ensures ProfileFolderName(ProfileFolderName(email)) == ProfileFolderName(email)
  {
    var r := ProfileFolderName(email);
    assert ReplaceChar(r, '@', '_') == r;
    assert ReplaceChar(r, '.', '_') == r;
  }

  /** What `btoa` throws on a character outside Latin-1. */
  const InvalidCharacter := "Invalid character"
  const MissingExecutable := "executablePath 未配置！"

  function Quoted(s: string): string {
    "\"" + s + "\""
  }

  /**
   * The arguments Chrome is started with, in order; the extension flags are
   * added only when the VPN extension exists. `profileDir` and `profileName`
   * are the directory and the base name of the profile path.
   */
  function LaunchArgs(port: nat, profileDir: string, profileName: string, x: int, y: int, windowName: string,
                      vpnExtension: bool, extensionPath: string): (args: seq<string>)
    ensures |args| == if vpnExtension then 17 else 15
    ensures args[2] == "--remote-debugging-port=" + NatToString(port)
    ensures args[14] == "--window-name=" + windowName
  {
    var base := [
      "--user-data-dir=" + Quoted(profileDir),
      "--profile-directory=" + Quoted(profileName),
      "--remote-debugging-port=" + NatToString(port),
      "--no-first-run",
      "--width=1080",
      "--height=720",
      "--window-position=" + IntToString(x) + "," + IntToString(y),
      "--window-name=" + profileName,
      "--no-default-browser-check",
      "--disable-extensions-file-access-check",
      "--disable-save-password-bubble",
      "--disable-prompt-on-repost",
      "--window-size=1080,720",
      "--lang=en-US",
      "--window-name=" + windowName
    ];
    if vpnExtension then
      base + ["--disable-extensions-except=" + Quoted(extensionPath), "--load-extension=" + Quoted(extensionPath)]
    else base
  }

  /** The extension flags are the only difference the VPN extension makes, and they come last. */
  lemma ExtensionFlagsLast(port: nat, profileDir: string, profileName: string, x: int, y: int, windowName: string,
                           extensionPath: string)
    ensures var with := LaunchArgs(port, profileDir, profileName, x, y, windowName, true, extensionPath);
            var without := LaunchArgs(port, profileDir, profileName, x, y, windowName, false, extensionPath);
            with[..15] == without
            && with[15] == "--disable-extensions-except=" + Quoted(extensionPath)
            && with[16] == "--load-extension=" + Quoted(extensionPath)
  {
  }

  /**
   * `launchBrowserProcess`: the command line, or what it throws. The window name
   * is computed while the arguments are built, so an email `btoa` rejects fails
   * before the missing executable path is noticed.
   */
  function LaunchCommand(port: nat, profileDir: string, profileName: string, email: string, executablePath: string,
                         vpnExtension: bool, extensionPath: string): (r: Result<string, string>)
    ensures WindowName(email).None? ==> r == Err(InvalidCharacter)
    ensures WindowName(email).Some? && executablePath == "" ==> r == Err(MissingExecutable)
    ensures r.Ok? ==> WindowName(email).Some? && executablePath != ""
  {
    var h := Hash(port, email);
    var name := WindowName(email);
    if name.None? then Err(InvalidCharacter)
    else if executablePath == "" then Err(MissingExecutable)
    else
      var args := LaunchArgs(port, profileDir, profileName, WindowX(h), WindowY(h), name.value, vpnExtension, extensionPath);
      Ok(Join([Quoted(executablePath)] + args, " "))
  }

  /** The command is the quoted executable, a space, then the arguments joined by single spaces. */
  lemma LaunchCommandShape(port: nat, profileDir: string, profileName: string, email: string, executablePath: string,
                           vpnExtension: bool, extensionPath: string)
    requires WindowName(email).Some? && executablePath != ""
    ensures var h := Hash(port, email);
            var args := LaunchArgs(port, profileDir, profileName, WindowX(h), WindowY(h), WindowName(email).value,
                                   vpnExtension, extensionPath);
            LaunchCommand(port, profileDir, profileName, email, executablePath, vpnExtension, extensionPath)
              == Ok(Quoted(executablePath) + " " + Join(args, " "))
  {
    var h := Hash(port, email);
    var args := LaunchArgs(port, profileDir, profileName, WindowX(h), WindowY(h), WindowName(email).value,
                           vpnExtension, extensionPath);
    assert ([Quoted(executablePath)] + args)[1..] == args;
  }

  /** The outcome of one request to `/json/version`: a response with its parsed body (None when it is not JSON), or a failure. */
  datatype Probe = Response(status: int, body: Option<Value>) | Failed

  /** `checkPort()`: HTTP 200 with a truthy body whose `webSocketDebuggerUrl` is truthy. */
  predicate PortReady(p: Probe)
    ensures p.Failed? || p.status != 200 ==> !PortReady(p)
    ensures PortReady(p) ==> p.Response? && p.body.Some? && p.body.value.Obj? && "webSocketDebuggerUrl" in p.body.value.fields
  {
    p.Response? && p.status == 200 && p.body.Some? && Truthy(p.body.value)
    && Truthy(Member(p.body.value, "webSocketDebuggerUrl"))
  }

  /** `Math.ceil(timeout / 1000)` for a whole number of milliseconds. */
  function CeilDiv1000(t: int): (r: int)
    ensures 1000 * (r - 1) < t <= 1000 * r
  {
    -((-t) / 1000)
  }

  /** The number of probes the loop can make: the do-while runs at least once. */
  function MaxProbes(timeout: int): (r: int)
    ensures r >= 1 && r >= CeilDiv1000(timeout)
    ensures CeilDiv1000(timeout) >= 1 ==> r == CeilDiv1000(timeout)
  {
    if CeilDiv1000(timeout) >= 1 then CeilDiv1000(timeout) else 1
  }

  /**
   * `checkPortAvailable(port, timeout)`: probe until one succeeds or the
   * attempts reach `ceil(timeout / 1000)`, sleeping a second between probes but
   * not after the last.
   */
  method CheckPortAvailable(timeout: int, probe: nat -> Probe) returns (available: bool, probes: nat, sleeps: nat)
    ensures 1 <= probes <= MaxProbes(timeout)
    ensures sleeps == probes - 1
    ensures forall i :: 0 <= i < probes - 1 ==> !PortReady(probe(i))
    ensures available <==> PortReady(probe(probes - 1))
    ensures !available ==> probes == MaxProbes(timeout)
  {
    var maxAttempts := CeilDiv1000(timeout);
    var attempts := 0;
    sleeps := 0;
    while true
      invariant 0 <= attempts < MaxProbes(timeout)
      invariant sleeps == attempts
      invariant forall i :: 0 <= i < attempts ==> !PortReady(probe(i))
      decreases MaxProbes(timeout) - attempts
    {
      if PortReady(probe(attempts)) {
        return true, attempts + 1, sleeps;
      }
      attempts := attempts + 1;
      if attempts < maxAttempts {
        sleeps := sleeps + 1;
      }
      if attempts >= maxAttempts {
        return false, attempts, sleeps;
      }
    }
  }

  /** The timeout `launchBrowserSession` waits for the DevTools port, in milliseconds. */
  const SessionTimeout := 30_000

  /** The error a session start throws when the port never answered. */
  const TimeoutPrefix := "浏览器启动超时 端口 "
  const TimeoutSuffix := " 未能成功打开"

  /** The port is written in decimal between the two fixed parts, so it can be read back from the message. */
  function PortTimeout(port: nat): (m: string)
    ensures |m| > |TimeoutPrefix| + |TimeoutSuffix|
    ensures m[..|TimeoutPrefix|] == TimeoutPrefix && m[|m| - |TimeoutSuffix|..] == TimeoutSuffix
    ensures forall i :: |TimeoutPrefix| <= i < |m| - |TimeoutSuffix| ==> IsDigit(m[i])
    ensures ParseNat(m[|TimeoutPrefix|..|m| - |TimeoutSuffix|]) == port
  {
    var digits := NatToString(port);
    var m := TimeoutPrefix + digits + TimeoutSuffix;
    assert m[|TimeoutPrefix|..|m| - |TimeoutSuffix|] == digits;
    ParseNatToString(port);
    m
  }

  /** Different ports give different timeout messages. */
  lemma PortTimeoutInjective(a: nat, b: nat)
    requires PortTimeout(a) == PortTimeout(b)
    ensures a == b
  {
  }

  /** What a started process and an answering port yield; the DevTools connection itself is not modelled. */
  datatype Launched = Launched(port: nat, command: string, probes: nat)

  /**
   * `launchBrowserSession` up to the DevTools connection: the command is built
   * (or throws), the process started, and the port probed at most thirty times.
   */
  method LaunchBrowserSession(port: nat, profileDir: string, profileName: string, email: string, executablePath: string,
                              vpnExtension: bool, extensionPath: string, probe: nat -> Probe)
    returns (r: Result<Launched, string>)
    ensures var cmd := LaunchCommand(port, profileDir, profileName, email, executablePath, vpnExtension, extensionPath);
            cmd.Err? ==> r == Err(cmd.error)
    ensures r.Ok? ==> 1 <= r.value.probes <= 30 && PortReady(probe(r.value.probes - 1)) && r.value.port == port
    ensures r.Ok? ==> forall i :: 0 <= i < r.value.probes - 1 ==> !PortReady(probe(i))
    ensures var cmd := LaunchCommand(port, profileDir, profileName, email, executablePath, vpnExtension, extensionPath);
            r.Ok? ==> cmd.Ok? && r.value.command == cmd.value
    ensures r.Err? && LaunchCommand(port, profileDir, profileName, email, executablePath, vpnExtension, extensionPath).Ok? ==>
              r.error == PortTimeout(port) && forall i :: 0 <= i < 30 ==> !PortReady(probe(i))
  {
    r := WaitForPort(port, LaunchCommand(port, profileDir, profileName, email, executablePath, vpnExtension, extensionPath), probe);
  }

  /**
   * What follows the launch: an error the launch threw is passed on; otherwise
   * the port is probed until it answers or thirty probes failed.
   */
  method WaitForPort(port: nat, launched: Result<string, string>, probe: nat -> Probe) returns (r: Result<Launched, string>)
    ensures launched.Err? ==> r == Err(launched.error)
    ensures r.Ok? ==> launched.Ok? && r.value == Launched(port, launched.value, r.value.probes)
    ensures r.Ok? ==> 1 <= r.value.probes <= 30 && PortReady(probe(r.value.probes - 1))
    ensures r.Ok? ==> forall i :: 0 <= i < r.value.probes - 1 ==> !PortReady(probe(i))
    ensures r.Err? && launched.Ok? ==> r.error == PortTimeout(port) && forall i :: 0 <= i < 30 ==> !PortReady(probe(i))
  {
    if launched.Err? {
      return Err(launched.error);
    }
    var available, probes, sleeps := CheckPortAvailable(SessionTimeout, probe);
    if !available {
      return Err(PortTimeout(port));
    }
    return Ok(Launched(port, launched.value, probes));
  }

  /** What the `closeBrowser` of a session does, in order. */
  datatype CloseStep = KillProcess | CloseConnection

  /**
   * `closeBrowser()`: the process is killed, then the connection closed; a
   * failure of either is swallowed, so it never throws, and a kill that throws
   * skips the close.
   */
  function CloseBrowser(killThrows: bool): (steps: seq<CloseStep>)
    ensures |steps| >= 1 && steps[0] == KillProcess
    ensures CloseConnection in steps <==> !killThrows
  {
    if killThrows then [KillProcess] else [KillProcess, CloseConnection]
  }
}
