/**
 * The e-mail sign-up flow: the password is checked against five rules before
 * any navigation, then the sign-up form is filled and the page decides whether
 * a verification code is asked for or the account already exists.
 */
module LoginEmail {
  import opened Common
  import opened Strings
  import opened Entities

  /** The password rules, in the order they are checked. */
  datatype Rule = MinLength | Lowercase | Uppercase | Digit | Special

  const AllRules := [MinLength, Lowercase, Uppercase, Digit, Special]

  /** The characters of the special-character class `[!@#$%^&*()_+\-=\[\]{};':"\\|,.<>\/?]`. */
  const Specials := "!@#$%^&*()_+-=[]{};':\"\\|,.<>/?"

  predicate IsSpecial(c: char) { c in Specials }

  predicate HasCharWhere(password: string, p: char -> bool) {
    exists i :: 0 <= i < |password| && p(password[i])
  }

  /** Whether the password breaks the rule. */
  predicate Broken(rule: Rule, password: string)
    ensures |password| == 0 ==> Broken(rule, password)
  {
    match rule
    case MinLength => |password| < 8
    case Lowercase => !HasCharWhere(password, IsLowerAscii)
    case Uppercase => !HasCharWhere(password, IsUpperAscii)
    case Digit => !HasCharWhere(password, IsDigit)
    case Special => !HasCharWhere(password, IsSpecial)
  }

  function Message(rule: Rule): (m: string)
    ensures |m| > 2 && m[..2] == "密码"
  {
    match rule
    case MinLength => "密码长度至少需要8个字符"
    case Lowercase => "密码必须包含至少1个小写字母"
    case Uppercase => "密码必须包含至少1个大写字母"
    case Digit => "密码必须包含至少1个数字"
    case Special => "密码必须包含至少1个特殊字符"
  }

  /** A rule the password keeps stays kept when more characters are typed after it. */
  lemma KeptWhenExtended(rule: Rule, password: string, more: string)
    requires !Broken(rule, password)
    ensures !Broken(rule, password + more)
  {
    match rule
    case MinLength =>
    case Lowercase => HasCharExtends(password, more, IsLowerAscii);
    case Uppercase => HasCharExtends(password, more, IsUpperAscii);
    case Digit => HasCharExtends(password, more, IsDigit);
    case Special => HasCharExtends(password, more, IsSpecial);
  }

  lemma HasCharExtends(password: string, more: string, p: char -> bool)
    requires HasCharWhere(password, p)
    ensures HasCharWhere(password + more, p)
  {
    var i :| 0 <= i < |password| && p(password[i]);
    assert (password + more)[i] == password[i];
  }

  /** Every rule has a message of its own. */
  lemma MessageInjective(a: Rule, b: Rule)
    ensures Message(a) == Message(b) ==> a == b
  {
  }

  function Messages(rules: seq<Rule>): (ms: seq<string>)
    ensures |ms| == |rules|
    ensures forall i :: 0 <= i < |rules| ==> ms[i] == Message(rules[i])
  {
    seq(|rules|, i requires 0 <= i < |rules| => Message(rules[i]))
  }

  /** The rules among `rules` that the password breaks, in order. */
  function BrokenAmong(rules: seq<Rule>, password: string): (rs: seq<Rule>)
    ensures |rs| <= |rules|
    ensures forall r :: r in rs <==> r in rules && Broken(r, password)
    decreases |rules|
  {
    if |rules| == 0 then []
    else
      var last := rules[|rules| - 1];
      BrokenAmong(rules[..|rules| - 1], password) + (if Broken(last, password) then [last] else [])
  }

  /** The rules the password breaks, in checking order. */
  function Violations(password: string): (rs: seq<Rule>)
    ensures |rs| <= 5
    ensures forall r :: r in rs <==> Broken(r, password)
  {
    BrokenAmong(AllRules, password)
  }

  /** `validatePassword`: one message per broken rule, valid iff there is none. */
  method ValidatePassword(password: string) returns (isValid: bool, errors: seq<string>)
    ensures errors == Messages(Violations(password))
    ensures isValid <==> errors == []
  {
    errors := [];
    if |password| < 8 {
      errors := errors + [Message(MinLength)];
    }
    assert errors == Reported(password, 1);
    if !HasCharWhere(password, IsLowerAscii) {
      errors := errors + [Message(Lowercase)];
    }
    assert errors == Reported(password, 2);
    if !HasCharWhere(password, IsUpperAscii) {
      errors := errors + [Message(Uppercase)];
    }
    assert errors == Reported(password, 3);
    if !HasCharWhere(password, IsDigit) {
      errors := errors + [Message(Digit)];
    }
    assert errors == Reported(password, 4);
    if !HasCharWhere(password, IsSpecial) {
      errors := errors + [Message(Special)];
    }
    assert errors == Reported(password, 5);
    ReportedAll(password);
    isValid := |errors| == 0;
  }

  /** The messages after checking the first `n` rules. */
  function Reported(password: string, n: nat): (ms: seq<string>)
    requires n <= |AllRules|
    ensures |ms| <= n
  {
    if n == 0 then []
    else Reported(password, n - 1) + (if Broken(AllRules[n - 1], password) then [Message(AllRules[n - 1])] else [])
  }

  /** Checking the first rules one after the other reports the messages of those among them that are broken. */
  lemma {:induction false} ReportedIsMessages(password: string, n: nat)
    requires n <= |AllRules|
    ensures Reported(password, n) == Messages(BrokenAmong(AllRules[..n], password))
  {
    if n > 0 {
      ReportedIsMessages(password, n - 1);
      CheckedOneMore(password, Reported(password, n - 1), n - 1);
    }
  }

  /** All five checks report the messages of the violations. */
  lemma ReportedAll(password: string)
    ensures Reported(password, 5) == Messages(Violations(password))
  {
    ReportedIsMessages(password, 5);
    assert AllRules[..5] == AllRules;
  }

  /** Checking rule n appends its message exactly when the password breaks it. */
  lemma CheckedOneMore(password: string, before: seq<string>, n: nat)
    requires n < |AllRules|
    requires before == Messages(BrokenAmong(AllRules[..n], password))
    ensures before + (if Broken(AllRules[n], password) then [Message(AllRules[n])] else [])
            == Messages(BrokenAmong(AllRules[..n + 1], password))
  {
    assert AllRules[..n + 1][..n] == AllRules[..n];
  }

  /** A password is accepted exactly when it has eight characters and one of each class. */
  lemma ValidIff(password: string)
    ensures Violations(password) == [] <==>
              |password| >= 8 && HasCharWhere(password, IsLowerAscii) && HasCharWhere(password, IsUpperAscii)
              && HasCharWhere(password, IsDigit) && HasCharWhere(password, IsSpecial)
  {
    if Violations(password) == [] {
      assert MinLength !in Violations(password) && Lowercase !in Violations(password);
      assert Uppercase !in Violations(password) && Digit !in Violations(password);
      assert Special !in Violations(password);
    } else {
      var r := Violations(password)[0];
      assert r in Violations(password);
      match r
      case MinLength =>
      case Lowercase =>
      case Uppercase =>
      case Digit =>
      case Special =>
    }
  }

  /** A short password is reported first with the length message. */
  lemma ShortFirst(password: string)
    requires |password| < 8
    ensures |Violations(password)| > 0 && Messages(Violations(password))[0] == Message(MinLength)
  {
    BrokenAmongFirst(AllRules, password);
  }

  /** A broken first rule is reported first. */
  lemma {:induction false} BrokenAmongFirst(rules: seq<Rule>, password: string)
    requires |rules| > 0 && Broken(rules[0], password)
    ensures |BrokenAmong(rules, password)| > 0 && BrokenAmong(rules, password)[0] == rules[0]
    decreases |rules|
  {
    if |rules| > 1 {
      var init := rules[..|rules| - 1];
      assert init[0] == rules[0];
      BrokenAmongFirst(init, password);
    }
  }

  /** What happened first after the create-account click: the first selector to appear wins. */
  datatype RaceWinner = VerificationCodeField | AccountExistsText

  /** A page operation of the flow, in order. */
  datatype PageStep =
    | GotoSignUp
    | FillEmail(email: string)
    | FillPassword(password: string)
    | FillConfirmation(password: string)
    | ClickCreateAccount
    | ShowEmailBanner(email: string)
    | WatchForConfirmation

  const AccountExists := "该账户已存在"

  /** How the flow ended: the page steps taken, the messages passed to onError and the error thrown, if any. */
  datatype SignUpRun = SignUpRun(steps: seq<PageStep>, reported: seq<string>, result: Result<(), string>)

  /** `performLoginWithEmail`, with the race decided by `race`. */
  function SignUp(account: Credentials, race: RaceWinner): (r: SignUpRun)
    ensures Violations(account.password) != [] ==>
              var message := Join(Messages(Violations(account.password)), "\n");
              r == SignUpRun([], [message], Err(message))
    ensures Violations(account.password) == [] ==>
              r.reported == [] && |r.steps| >= 5 && r.steps[0] == GotoSignUp
              && (r.result.Err? <==> race == AccountExistsText)
              && (r.result.Err? ==> r.result.error == AccountExists)
  {
    var violations := Violations(account.password);
    if violations != [] then
      var message := Join(Messages(violations), "\n");
      SignUpRun([], [message], Err(message))
    else
      var form := [GotoSignUp, FillEmail(account.email), FillPassword(account.password),
                   FillConfirmation(account.password), ClickCreateAccount];
      match race
      case AccountExistsText => SignUpRun(form, [], Err(AccountExists))
      case VerificationCodeField => SignUpRun(form + [ShowEmailBanner(account.email), WatchForConfirmation], [], Ok(()))
  }

  /** The password entered on the form is the one that passed the rules. */
  lemma SignUpFillsCheckedPassword(account: Credentials, race: RaceWinner, i: nat)
    requires i < |SignUp(account, race).steps| && SignUp(account, race).steps[i].FillPassword?
    ensures SignUp(account, race).steps[i].password == account.password
    ensures |account.password| >= 8
  {
    assert MinLength !in Violations(account.password);
  }
}
