/**
 * The import dialog's parser: pasted text is one account per line, with the
 * e-mail, the password and the two-factor seed separated by tabs. Candidates
 * without an e-mail, without a password or whose e-mail lacks '@' are dropped.
 */
module AddAccounts {
  import opened Strings
  import opened Entities

  const NoneRecognised := "无法识别任何账号, 请确保粘贴的账号信息格式正确"
  const SomeDropped := "检测到有部分账号信息格式不正确, 已自动过滤"

  /** Field `i` of a line, trimmed; a missing field is "". */
  function Field(fields: seq<string>, i: nat): (r: string)
    ensures i >= |fields| ==> r == ""
    ensures i < |fields| ==> r == Trim(fields[i])
  {
    if i < |fields| then Trim(fields[i]) else ""
  }

  /** One line: its first three tab-separated fields; the others are ignored. */
  function Candidate(line: string): (c: Credentials) {
    var fields := Split(line, {'\t'});
    Credentials(Field(fields, 0), Field(fields, 1), Field(fields, 2))
  }

  /** `data.split('\n').map(line => line.split('\t'))` and the destructuring: one candidate per line. */
  function Candidates(text: string): (cs: seq<Credentials>)
    ensures |cs| == |Split(text, {'\n'})| && |cs| >= 1
    ensures forall i :: 0 <= i < |cs| ==> cs[i] == Candidate(Split(text, {'\n'})[i])
  {
    var lines := Split(text, {'\n'});
    seq(|lines|, i requires 0 <= i < |lines| => Candidate(lines[i]))
  }

  /** The first filter: an e-mail and a password are both present. */
  predicate Filled(c: Credentials) { c.email != "" && c.password != "" }

  /** The second filter: the e-mail contains '@'. */
  predicate HasAt(c: Credentials) { Contains(c.email, "@") }

  /** What the two filters keep. */
  predicate Acceptable(c: Credentials) { Filled(c) && HasAt(c) }

  /** The two filters in a row keep, in order, exactly the acceptable candidates. */
  lemma {:induction false} TwoFilters(cs: seq<Credentials>)
    ensures Filter(Filter(cs, Filled), HasAt) == Filter(cs, Acceptable)
    decreases |cs|
  {
    if |cs| > 0 {
      TwoFilters(cs[1..]);
    }
  }

  /** How `handleOk` ends. */
  datatype Outcome =
    | Rejected(error: string)
    | Submitted(accounts: seq<Credentials>, warning: bool)

  /** `handleOk`: an error when nothing survives, a warning when something was dropped, then `addAccounts`. */
  function HandleOk(text: string): (r: Outcome)
    ensures r.Rejected? <==> Filter(Candidates(text), Acceptable) == []
    ensures r.Rejected? ==> r.error == NoneRecognised
    ensures r.Submitted? ==>
              r.accounts == Filter(Candidates(text), Acceptable)
              && (r.warning <==> |r.accounts| < |Candidates(text)|)
  {
    var accounts := Candidates(text);
    if |accounts| == 0 then Rejected(NoneRecognised)
    else
      var valid := Filter(Filter(accounts, Filled), HasAt);
      TwoFilters(accounts);
      if |valid| != |accounts| then
        if |valid| == 0 then Rejected(NoneRecognised) else Submitted(valid, true)
      else Submitted(valid, false)
  }

  /** Every submitted account has an e-mail with '@' and a password, with no blank around them. */
  lemma SubmittedAreWellFormed(text: string, i: nat)
    requires HandleOk(text).Submitted? && i < |HandleOk(text).accounts|
    ensures var c := HandleOk(text).accounts[i];
            c.email != "" && c.password != "" && '@' in c.email
            && !IsSpace(c.email[0]) && !IsSpace(c.password[0])
  {
    var cs := Candidates(text);
    var c := HandleOk(text).accounts[i];
    assert c in Filter(cs, Acceptable);
    var j :| 0 <= j < |cs| && cs[j] == c;
    var fields := Split(Split(text, {'\n'})[j], {'\t'});
    assert c.email == Field(fields, 0) && c.password == Field(fields, 1);
    AtFound(c.email);
  }

  /** A string containing "@" has an '@' character. */
  lemma AtFound(s: string)
    requires Contains(s, "@")
    ensures '@' in s
  {
    ContainsAt(s, "@");
    var k :| OccursAt(s, "@", k);
    assert s[k..k + 1] == "@";
    assert s[k] == '@';
  }

  /** Empty input still yields one empty candidate, which the filters then reject. */
  lemma EmptyInput()
    ensures Candidates("") == [Credentials("", "", "")]
    ensures HandleOk("") == Rejected(NoneRecognised)
  {
    OneLine("");
    EmptyLine();
  }

  /** Text without a line break is a single line. */
  lemma OneLine(text: string)
    requires forall i :: 0 <= i < |text| ==> text[i] != '\n'
    ensures Candidates(text) == [Candidate(text)]
  {
    SplitNoSeparator(text, {'\n'});
  }

  /** An empty line is a candidate with every field empty. */
  lemma EmptyLine()
    ensures Candidate("") == Credentials("", "", "")
  {
    assert Split("", {'\t'}) == [""];
    assert Trim("") == "";
  }

  /** A line as a user pastes it: the three fields separated by tabs. */
  function Line(c: Credentials): string {
    c.email + "\t" + c.password + "\t" + c.twoFactorCode
  }

  /** A field that survives pasting: no tab or line break, no blank at either end. */
  predicate Clean(s: string) {
    '\t' !in s && '\n' !in s && (s == [] || (!IsSpace(s[0]) && !IsSpace(s[|s| - 1])))
  }

  predicate CleanAccount(c: Credentials) {
    Clean(c.email) && Clean(c.password) && Clean(c.twoFactorCode)
  }

  lemma LineIsJoin(c: Credentials)
    ensures Join([c.email, c.password, c.twoFactorCode], "\t") == Line(c)
  {
    var parts := [c.email, c.password, c.twoFactorCode];
    assert parts[1..][1..] == [c.twoFactorCode];
    assert Join(parts[1..], "\t") == c.password + "\t" + c.twoFactorCode;
  }

  /** Parsing a pasted line gives back its account. */
  lemma CandidateLine(c: Credentials)
    requires CleanAccount(c)
    ensures Candidate(Line(c)) == c
  {
    var parts := [c.email, c.password, c.twoFactorCode];
    LineIsJoin(c);
    forall k, i | 0 <= k < |parts| && 0 <= i < |parts[k]|
      ensures parts[k][i] != '\t'
    {
      assert parts[k][i] in parts[k];
    }
    SplitJoin(parts, '\t');
  }

  /** Pasting clean, acceptable accounts one per line submits exactly them, without a warning. */
  lemma {:induction false} PasteRoundTrip(cs: seq<Credentials>)
    requires |cs| >= 1
    requires forall i :: 0 <= i < |cs| ==> CleanAccount(cs[i]) && Acceptable(cs[i])
    ensures HandleOk(Join(seq(|cs|, i requires 0 <= i < |cs| => Line(cs[i])), "\n")) == Submitted(cs, false)
  {
    var lines := seq(|cs|, i requires 0 <= i < |cs| => Line(cs[i]));
    var text := Join(lines, "\n");
    forall k, i | 0 <= k < |lines| && 0 <= i < |lines[k]|
      ensures lines[k][i] != '\n'
    {
      var c := cs[k];
      assert lines[k] == c.email + "\t" + c.password + "\t" + c.twoFactorCode;
    }
    SplitJoin(lines, '\n');
    forall i | 0 <= i < |cs|
      ensures Candidates(text)[i] == cs[i]
    {
      CandidateLine(cs[i]);
    }
    assert Candidates(text) == cs;
    FilterAll(cs, Acceptable);
  }
}
