/**
 * The Google sign-in flow. Once the browser is on Google's accounts pages, a
 * loop polls the page URL (cut at the first '?'), counts how often the same
 * URL is seen in a row, turns too many repeats into a fatal error, and
 * otherwise dispatches the URL through an ordered table of URL fragments to
 * the action the page needs. The wrapper around the flow suppresses its
 * callbacks once the caller has closed the browser.
 *
 * The page is an oracle: the URL observed at each tick, whether the page
 * offers the authenticator option, and what the manual-wait loop sees.
 */
module LoginGoogle {
  import opened Common
  import opened Strings
  import opened Entities

  /** `url.split('?')[0]`: everything before the first '?'. */
  function StripQuery(url: string): (r: string)
    ensures '?' !in r && IsPrefix(r, url)
    ensures '?' !in url ==> r == url
    decreases |url|
  {
    if |url| == 0 || url[0] == '?' then "" else [url[0]] + StripQuery(url[1..])
  }

  /** The cut is the first piece of splitting at '?'. */
  lemma {:induction false} StripQueryIsFirstPiece(url: string)
    ensures StripQuery(url) == Split(url, {'?'})[0]
    decreases |url|
  {
    if |url| > 0 && url[0] != '?' {
      StripQueryIsFirstPiece(url[1..]);
    }
  }

  /** The fragments whose repeats are not counted. */
  const NoCountFragments := ["challenge/kpe", "challenge/ipe/verify", "challenge/iap", "challenge/recaptcha",
                             "challenge/ipp/consent", "accounts/SetSID", "challenge/ipp/verify"]

  predicate Exempt(url: string) {
    exists i :: 0 <= i < |NoCountFragments| && Contains(url, NoCountFragments[i])
  }

  const GooglePrefix := "https://accounts.google.com/"
  const Identifier := "signin/identifier"

  const WrongPassword := "账号或者密码错误！"
  const WrongCode := "二步验证码错误！"
  const TooManyRetries := "重试次数过多，无法继续！"
  const NoSeed := "二步验证码未配置！但却要输入二步验证码！"
  const Unconfigured := "未配置的链接"

  /** What a page of the table asks for. */
  datatype Handler =
    | EnterEmail | EnterPassword | EnterCode | Consent | OtherMethods | Selection
    | ManualWait(pattern: string) | Redirect

  /** A row of the dispatch table: the page matches when its URL contains one of the fragments. */
  datatype Route = Route(fragments: seq<string>, handler: Handler)

  /** The dispatch table, in the order the loop tries it. */
  const Routes: seq<Route> := [
    Route(["signin/identifier"], EnterEmail),
    Route(["challenge/pwd"], EnterPassword),
    Route(["challenge/totp"], EnterCode),
    Route(["signin/oauth/id"], Consent),
    Route(["signin/challenge/pk/presend"], OtherMethods),
    Route(["challenge/selection"], Selection),
    Route(["challenge/kpe"], ManualWait("challenge/kpe")),
    Route(["challenge/ipe/verify"], ManualWait("challenge/ipe/verify")),
    Route(["challenge/iap"], ManualWait("challenge/iap")),
    Route(["challenge/recaptcha"], ManualWait("challenge/recaptcha")),
    Route(["challenge/ipp/consent"], ManualWait("challenge/ipp/consent")),
    Route(["accounts/SetSID", "challenge/ipp/verify"], Redirect)
  ]

  predicate Matches(url: string, route: Route) {
    exists j :: 0 <= j < |route.fragments| && Contains(url, route.fragments[j])
  }

  /** The first row of `routes` that matches the URL. */
  function FirstRoute(url: string, routes: seq<Route>): (r: Option<nat>)
    ensures r.None? <==> forall i :: 0 <= i < |routes| ==> !Matches(url, routes[i])
    ensures r.Some? ==> r.value < |routes| && Matches(url, routes[r.value])
                        && forall i :: 0 <= i < r.value ==> !Matches(url, routes[i])
    decreases |routes|
  {
    if |routes| == 0 then None
    else if Matches(url, routes[0]) then Some(0)
    else
      var rest := FirstRoute(url, routes[1..]);
      if rest.None? then None
      else
        assert forall i :: 0 <= i < rest.value ==> routes[i + 1] == routes[1..][i];
        Some(rest.value + 1)
  }

  /** What the loop does on a page; the code is the TOTP of `seed`, whose generator is not modelled. */
  datatype Action =
    | TypeEmail(email: string)
    | TypePassword(password: string)
    | FillCode(seed: string)
    | ClickContinue
    | ClickOtherMethods
    | ClickAuthenticator
    | WaitManually(pattern: string)
    | NoAction

  /** The action of a handler for the account; a code page without a seed is an error. */
  function Act(h: Handler, account: Credentials, authenticatorOffered: bool): (r: Result<Action, string>)
    ensures h == EnterCode && account.twoFactorCode == "" ==> r == Err(NoSeed)
    ensures h == EnterCode && account.twoFactorCode != "" ==> r == Ok(FillCode(RemoveChar(account.twoFactorCode, ' ')))
    ensures r.Err? ==> h == EnterCode
  {
    match h
    case EnterEmail => Ok(TypeEmail(account.email))
    case EnterPassword => Ok(TypePassword(account.password))
    case EnterCode => if account.twoFactorCode == "" then Err(NoSeed) else Ok(FillCode(RemoveChar(account.twoFactorCode, ' ')))
    case Consent => Ok(ClickContinue)
    case OtherMethods => Ok(ClickOtherMethods)
    case Selection => if authenticatorOffered then Ok(ClickAuthenticator) else Ok(WaitManually("challenge/selection"))
    case ManualWait(p) => Ok(WaitManually(p))
    case Redirect => Ok(NoAction)
  }

  /** The dispatch of a new URL: the first matching row decides; a URL no row knows is an error. */
  function Dispatch(url: string, account: Credentials, authenticatorOffered: bool): (r: Result<Action, string>)
    ensures FirstRoute(url, Routes).None? <==> r == Err(Unconfigured)
    ensures FirstRoute(url, Routes).Some? ==> r == Act(Routes[FirstRoute(url, Routes).value].handler, account, authenticatorOffered)
  {
    var i := FirstRoute(url, Routes);
    if i.None? then Err(Unconfigured) else Act(Routes[i.value].handler, account, authenticatorOffered)
  }

  /** The e-mail page wins over every later row, whatever else the URL contains. */
  lemma IdentifierFirst(url: string, account: Credentials, offered: bool)
    requires Contains(url, Identifier)
    ensures Dispatch(url, account, offered) == Ok(TypeEmail(account.email))
  {
    assert Matches(url, Routes[0]) by {
      assert Routes[0].fragments[0] == Identifier;
    }
  }

  /** On the code page, the code is generated from the seed with every space removed, or the flow fails without a seed. */
  lemma CodePage(url: string, account: Credentials, offered: bool)
    requires Contains(url, "challenge/totp") && !Contains(url, Identifier) && !Contains(url, "challenge/pwd")
    ensures account.twoFactorCode == "" ==> Dispatch(url, account, offered) == Err(NoSeed)
    ensures account.twoFactorCode != "" ==> Dispatch(url, account, offered) == Ok(FillCode(RemoveChar(account.twoFactorCode, ' ')))
  {
    assert !Matches(url, Routes[0]) by {
      assert Routes[0].fragments == [Identifier];
    }
    assert !Matches(url, Routes[1]) by {
      assert Routes[1].fragments == ["challenge/pwd"];
    }
    assert Matches(url, Routes[2]) by {
      assert Routes[2].fragments[0] == "challenge/totp";
    }
  }

  /** The loop's variables: the last URL seen and the repeat counter (-1 right after a reload). */
  datatype LoopState = LoopState(lastUrl: string, retryCount: int)

  const Initial := LoopState("", 0)

  /** What one tick ends with. */
  datatype Outcome =
    | Poll                     // the same URL again: sleep and look again
    | Reload                   // the e-mail page repeated too long: reload it
    | Perform(action: Action)  // a new URL: act on it
    | LoggedIn                 // left Google's pages: the loop ends
    | Fail(message: string)    // onError, then throw

  datatype StepResult = StepResult(state: LoopState, outcome: Outcome)

  /** The error a URL repeated more than fifteen times is reported with. */
  function FatalMessage(url: string): (m: string)
    ensures m in {WrongPassword, WrongCode, TooManyRetries}
  {
    if Contains(url, "challenge/pwd") then WrongPassword
    else if Contains(url, "challenge/totp") then WrongCode
    else TooManyRetries
  }

  /** A URL counts as new unless it equals the last one and the counter is not the -1 left by a reload. */
  predicate Repeated(s: LoopState, url: string) {
    url == s.lastUrl && s.retryCount != -1
  }

  /** Whether the loop has left Google's sign-in pages. */
  predicate LeftGoogle(url: string) {
    !IsPrefix(GooglePrefix, url) && !Contains(url, "challenge/ipp/verify") && !Contains(url, "accounts/SetSID")
  }

  /** One iteration of the `while (!isGoogleLogined)` loop, for the URL observed at that tick. */
  function Step(s: LoopState, observed: string, account: Credentials, authenticatorOffered: bool): (r: StepResult)
    ensures r.outcome.LoggedIn? <==> !Repeated(s, StripQuery(observed)) && LeftGoogle(StripQuery(observed))
  {
    var url := StripQuery(observed);
    if Repeated(s, url) then
      if s.retryCount > 15 then StepResult(s, Fail(FatalMessage(url)))
      else if s.retryCount > 5 && Contains(url, Identifier) then StepResult(s.(retryCount := -1), Reload)
      else if !Exempt(url) then StepResult(s.(retryCount := s.retryCount + 1), Poll)
      else StepResult(s, Poll)
    else
      var fresh_ := LoopState(url, 0);
      if LeftGoogle(url) then StepResult(fresh_, LoggedIn)
      else
        var act := Dispatch(url, account, authenticatorOffered);
        if act.Err? then StepResult(fresh_, Fail(act.error)) else StepResult(fresh_, Perform(act.value))
  }

  /** A new URL resets the counter to 0 and becomes the last URL. */
  lemma StepNewUrl(s: LoopState, observed: string, account: Credentials, offered: bool)
    requires !Repeated(s, StripQuery(observed))
    ensures Step(s, observed, account, offered).state == LoopState(StripQuery(observed), 0)
    ensures Step(s, observed, account, offered).outcome != Poll && Step(s, observed, account, offered).outcome != Reload
  {
  }

  /** A repeat below the ceiling (and not a reload) counts unless the URL is exempt. */
  lemma StepCountsRepeats(s: LoopState, observed: string, account: Credentials, offered: bool)
    requires Repeated(s, StripQuery(observed)) && s.retryCount <= 15
    requires !(s.retryCount > 5 && Contains(StripQuery(observed), Identifier))
    ensures var r := Step(s, observed, account, offered);
            r.outcome == Poll && r.state.lastUrl == s.lastUrl
            && r.state.retryCount == s.retryCount + (if Exempt(StripQuery(observed)) then 0 else 1)
  {
  }

  /** Past the ceiling, a repeat is fatal, with the message chosen by the page. */
  lemma StepCeiling(s: LoopState, observed: string, account: Credentials, offered: bool)
    requires Repeated(s, StripQuery(observed)) && s.retryCount > 15
    ensures Step(s, observed, account, offered).outcome == Fail(FatalMessage(StripQuery(observed)))
  {
  }

  /** From the initial state the counter stays between -1 and 16. */
  lemma StepKeepsCounterInRange(s: LoopState, observed: string, account: Credentials, offered: bool)
    requires -1 <= s.retryCount <= 16
    ensures -1 <= Step(s, observed, account, offered).state.retryCount <= 16
  {
  }

  /** On the e-mail page the counter stays within -1..6. */
  predicate IdentifierBounded(s: LoopState) {
    !Contains(s.lastUrl, Identifier) || -1 <= s.retryCount <= 6
  }

  /**
   * The reload keeps the e-mail page from ever reaching the ceiling: the
   * counter stays within -1..6 there, so no tick on it fails.
   */
  lemma IdentifierNeverFails(s: LoopState, observed: string, account: Credentials, offered: bool)
    requires IdentifierBounded(s) && Contains(StripQuery(observed), Identifier)
    ensures var r := Step(s, observed, account, offered);
            IdentifierBounded(r.state) && !r.outcome.Fail?
  {
    var url := StripQuery(observed);
    if !Repeated(s, url) {
      IdentifierFirst(url, account, offered);
    }
  }

  /** Every tick keeps the e-mail page bounded, whatever the URL. */
  lemma StepKeepsIdentifierBounded(s: LoopState, observed: string, account: Credentials, offered: bool)
    requires IdentifierBounded(s)
    ensures IdentifierBounded(Step(s, observed, account, offered).state)
  {
  }

  /** How the polling loop stands after some ticks. */
  datatype LoopEnd = Polling(state: LoopState) | SignedIn(ticks: nat) | Threw(ticks: nat, message: string)

  /** The ticks run so far, the actions taken, and the messages passed to onError. */
  datatype LoopRun = LoopRun(end: LoopEnd, actions: seq<Action>, reported: seq<string>)

  /** The loop over the URLs observed at successive ticks; it stops at the first sign-in or failure. */
  function RunTicks(account: Credentials, observed: seq<string>, offered: nat -> bool): (r: LoopRun)
    ensures r.end.SignedIn? ==> 1 <= r.end.ticks <= |observed|
    ensures r.end.Threw? ==> 1 <= r.end.ticks <= |observed|
    ensures |r.actions| + |r.reported| <= |observed|
    decreases |observed|
  {
    if |observed| == 0 then LoopRun(Polling(Initial), [], [])
    else
      var before := RunTicks(account, observed[..|observed| - 1], offered);
      if !before.end.Polling? then before
      else
        var tick := |observed| - 1;
        var r := Step(before.end.state, observed[tick], account, offered(tick));
        match r.outcome
        case Poll => LoopRun(Polling(r.state), before.actions, before.reported)
        case Reload => LoopRun(Polling(r.state), before.actions, before.reported)
        case Perform(a) => LoopRun(Polling(r.state), before.actions + [a], before.reported)
        case LoggedIn => LoopRun(SignedIn(tick + 1), before.actions, before.reported)
        case Fail(m) => LoopRun(Threw(tick + 1, m), before.actions, before.reported + [m])
  }

  /** The loop calls onError exactly once, with the error it throws, and never when it has not thrown. */
  lemma {:induction false} ReportedOnlyOnThrow(account: Credentials, observed: seq<string>, offered: nat -> bool)
    ensures var r := RunTicks(account, observed, offered);
            (r.end.Threw? ==> r.reported == [r.end.message]) && (!r.end.Threw? ==> r.reported == [])
    decreases |observed|
  {
    if |observed| > 0 {
      ReportedOnlyOnThrow(account, observed[..|observed| - 1], offered);
    }
  }

  /** Polling the e-mail page, however long, never fails: reloads keep the counter low. */
  lemma {:induction false} IdentifierPageNeverThrows(account: Credentials, observed: seq<string>, offered: nat -> bool)
    requires forall i :: 0 <= i < |observed| ==> Contains(StripQuery(observed[i]), Identifier)
    ensures var r := RunTicks(account, observed, offered);
            !r.end.Threw? && (r.end.Polling? ==> IdentifierBounded(r.end.state))
    decreases |observed|
  {
    if |observed| > 0 {
      var init := observed[..|observed| - 1];
      assert forall i :: 0 <= i < |init| ==> init[i] == observed[i];
      IdentifierPageNeverThrows(account, init, offered);
      var before := RunTicks(account, init, offered);
      if before.end.Polling? {
        IdentifierNeverFails(before.end.state, observed[|observed| - 1], account, offered(|observed| - 1));
      }
    }
  }

  /** One tick of the loop, as the source writes it: the variables it updates and how the tick ends. */
  method Tick(s: LoopState, observed: string, account: Credentials, authenticatorOffered: bool) returns (r: StepResult)
    ensures r == Step(s, observed, account, authenticatorOffered)
  {
    var lastUrl, retryCount := s.lastUrl, s.retryCount;
    var url := StripQuery(observed);
    if url == lastUrl && retryCount != -1 {
      if retryCount > 15 {
        return StepResult(s, Fail(FatalMessage(url)));
      }
      if retryCount > 5 && Contains(url, Identifier) {
        retryCount := -1;
        return StepResult(LoopState(lastUrl, retryCount), Reload);
      }
      if !Exempt(url) {
        retryCount := retryCount + 1;
      }
      return StepResult(LoopState(lastUrl, retryCount), Poll);
    }
    retryCount := 0;
    lastUrl := url;
    if LeftGoogle(url) {
      return StepResult(LoopState(lastUrl, retryCount), LoggedIn);
    }
    var act := Dispatch(url, account, authenticatorOffered);
    if act.Err? {
      return StepResult(LoopState(lastUrl, retryCount), Fail(act.error));
    }
    r := StepResult(LoopState(lastUrl, retryCount), Perform(act.value));
  }

  /** One more observation while the loop is polling is one more step. */
  lemma RunTicksNext(account: Credentials, observed: seq<string>, offered: nat -> bool, tick: nat)
    requires tick < |observed| && RunTicks(account, observed[..tick], offered).end.Polling?
    ensures var before := RunTicks(account, observed[..tick], offered);
            var r := Step(before.end.state, observed[tick], account, offered(tick));
            RunTicks(account, observed[..tick + 1], offered) ==
              match r.outcome
              case Poll => LoopRun(Polling(r.state), before.actions, before.reported)
              case Reload => LoopRun(Polling(r.state), before.actions, before.reported)
              case Perform(a) => LoopRun(Polling(r.state), before.actions + [a], before.reported)
              case LoggedIn => LoopRun(SignedIn(tick + 1), before.actions, before.reported)
              case Fail(m) => LoopRun(Threw(tick + 1, m), before.actions, before.reported + [m])
  {
    assert observed[..tick + 1][..tick] == observed[..tick];
  }

  /**
   * The polling loop of `performGoogleLogin` over the URLs observed at
   * successive ticks (`offered(i)`: whether the selection page offers the
   * authenticator at tick i).
   */
  method PerformGoogleLogin(account: Credentials, observed: seq<string>, offered: nat -> bool) returns (run: LoopRun)
    ensures run == RunTicks(account, observed, offered)
  {
    var state := Initial;
    var actions: seq<Action> := [];
    var tick := 0;
    while tick < |observed|
      invariant 0 <= tick <= |observed|
      invariant RunTicks(account, observed[..tick], offered) == LoopRun(Polling(state), actions, [])
      decreases |observed| - tick
    {
      var r := Tick(state, observed[tick], account, offered(tick));
      RunTicksNext(account, observed, offered, tick);
      tick := tick + 1;
      match r.outcome {
        case LoggedIn =>
          run := LoopRun(SignedIn(tick), actions, []);
          CutAfterEnd(account, observed, offered, tick);
          return;
        case Fail(m) =>
          run := LoopRun(Threw(tick, m), actions, [m]);
          CutAfterEnd(account, observed, offered, tick);
          return;
        case Perform(a) =>
          actions := actions + [a];
        case Poll =>
        case Reload =>
      }
      state := r.state;
    }
    assert observed[..tick] == observed;
    run := LoopRun(Polling(state), actions, []);
  }

  /** Once the loop has ended, later observations change nothing. */
  lemma {:induction false} CutAfterEnd(account: Credentials, observed: seq<string>, offered: nat -> bool, n: nat)
    requires n <= |observed| && !RunTicks(account, observed[..n], offered).end.Polling?
    ensures RunTicks(account, observed, offered) == RunTicks(account, observed[..n], offered)
    decreases |observed|
  {
    if |observed| > n {
      var init := observed[..|observed| - 1];
      assert init[..n] == observed[..n];
      CutAfterEnd(account, init, offered, n);
    } else {
      assert observed[..n] == observed;
    }
  }

  /**
   * `waitForManualVerification(pattern)`: poll once a second until the URL no
   * longer contains the pattern; `url(i)` is None when reading the URL threw.
   * The user is assumed to finish eventually (`done` is a poll where they have).
   */
  method WaitForManualVerification(pattern: string, url: nat -> Option<string>, ghost done: nat) returns (polls: nat)
    requires url(done).Some? && !Contains(url(done).value, pattern)
    ensures polls >= 1 && polls <= done + 1
    ensures url(polls - 1).Some? && !Contains(url(polls - 1).value, pattern)
    ensures forall i :: 0 <= i < polls - 1 ==> url(i).None? || Contains(url(i).value, pattern)
  {
    var i := 0;
    while true
      invariant 0 <= i <= done
      invariant forall j :: 0 <= j < i ==> url(j).None? || Contains(url(j).value, pattern)
      decreases done - i
    {
      var u := url(i);
      if u.Some? && !Contains(u.value, pattern) {
        return i + 1;
      }
      i := i + 1;
    }
  }
}
