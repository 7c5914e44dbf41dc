/**
 * The accounts page: the search filter over the table, the status tag, the
 * information column and the rule of the run button.
 */
module AccountsView {
  import opened Common
  import opened Strings
  import opened Entities

  /** Whether the account matches a search: e-mail, status name or logs include it, ignoring ASCII case. */
  predicate MatchesSearch(a: Account, search: string)
    ensures search == "" ==> MatchesSearch(a, search)
  {
    var needle := Lower(search);
    Contains(Lower(a.email), needle) || Contains(Lower(StatusName(a.status)), needle) || Contains(Lower(a.logs), needle)
  }

  /** A search longer than every searched column matches nothing. */
  lemma LongSearchMatchesNothing(a: Account, search: string)
    requires |search| > |a.email| && |search| > |StatusName(a.status)| && |search| > |a.logs|
    ensures !MatchesSearch(a, search)
  {
    var needle := Lower(search);
    if Contains(Lower(a.email), needle) { ContainsLength(Lower(a.email), needle); }
    if Contains(Lower(StatusName(a.status)), needle) { ContainsLength(Lower(StatusName(a.status)), needle); }
    if Contains(Lower(a.logs), needle) { ContainsLength(Lower(a.logs), needle); }
  }

  /** `filteredData`: nothing without data, everything for a blank search, else the matching rows in order. */
  function FilteredAccounts(data: Option<seq<Account>>, search: string): (r: seq<Account>)
    ensures data.None? ==> r == []
    ensures data.Some? && AllSpace(search) ==> r == data.value
    ensures data.Some? && !AllSpace(search) ==>
              |r| <= |data.value| && forall a :: a in r <==> a in data.value && MatchesSearch(a, search)
  {
    if data.None? then []
    else if Trim(search) == "" then data.value
    else Filter(data.value, a => MatchesSearch(a, search))
  }

  /** The rows kept are kept in their order: filtering a table of two parts filters each part. */
  lemma FilteredAccountsKeepsOrder(a: seq<Account>, b: seq<Account>, search: string)
    ensures FilteredAccounts(Some(a + b), search) == FilteredAccounts(Some(a), search) + FilteredAccounts(Some(b), search)
  {
    if Trim(search) != "" {
      FilterConcat(a, b, x => MatchesSearch(x, search));
    }
  }

  /**
   * The search is trimmed only to decide whether it is blank: a search that
   * starts with a blank matches no account whose e-mail and logs have none.
   */
  lemma SearchKeepsBlanks(a: Account, search: string)
    requires |search| > 0 && search[0] == ' '
    requires ' ' !in a.email && ' ' !in a.logs
    ensures !MatchesSearch(a, search)
  {
    var needle := Lower(search);
    assert needle[0] == ' ';
    NoBlankInLower(a.email);
    NoBlankInLower(a.logs);
    NoBlankInLower(StatusName(a.status));
    NoBlankNoMatch(Lower(a.email), needle);
    NoBlankNoMatch(Lower(StatusName(a.status)), needle);
    NoBlankNoMatch(Lower(a.logs), needle);
  }

  /** So a search that is not blank but starts with one keeps only rows with a blank in their e-mail or logs. */
  lemma FilteredKeepsBlanks(rows: seq<Account>, search: string)
    requires |search| > 0 && search[0] == ' ' && !AllSpace(search)
    ensures forall a :: a in FilteredAccounts(Some(rows), search) ==> ' ' in a.email || ' ' in a.logs
  {
    forall a | a in FilteredAccounts(Some(rows), search)
      ensures ' ' in a.email || ' ' in a.logs
    {
      if ' ' !in a.email && ' ' !in a.logs {
        SearchKeepsBlanks(a, search);
      }
    }
  }

  /** Lower-casing adds no blank. */
  lemma NoBlankInLower(s: string)
    requires ' ' !in s
    ensures ' ' !in Lower(s)
  {
    forall i | 0 <= i < |s|
      ensures Lower(s)[i] != ' '
    {
      assert s[i] in s;
    }
  }

  /** A text without a blank does not contain one that starts with a blank. */
  lemma {:induction false} NoBlankNoMatch(s: string, t: string)
    requires |t| > 0 && t[0] == ' ' && ' ' !in s
    ensures !Contains(s, t)
    decreases |s|
  {
    if |t| <= |s| {
      assert s[0] in s && s[..|t|][0] == s[0];
    }
    if |s| > 0 {
      NoBlankNoMatch(s[1..], t);
    }
  }

  /** The Chinese label of a status. */
  function StatusLabel(s: Status): (name: string)
    ensures name != ""
  {
    match s
    case Waiting => "等待中"
    case Running => "运行中"
    case WaitingForAction => "等待操作"
    case Error => "错误"
    case Success => "成功"
  }

  /** The tag text of a stored status: its label, or the raw string when it is not a status. */
  function TagText(raw: string): (text: string)
    ensures ParseStatus(raw).None? ==> text == raw
    ensures ParseStatus(raw).Some? ==> text == StatusLabel(ParseStatus(raw).value)
  {
    match ParseStatus(raw)
    case Some(s) => StatusLabel(s)
    case None => raw
  }

  /** Every status the table stores is shown with its label. */
  lemma TagTextOfStatus(s: Status)
    ensures TagText(StatusName(s)) == StatusLabel(s)
  {
    ParseStatusName(s);
  }

  /** What the information column shows. */
  datatype InfoCell = ViewButton(id: int) | LoginTime(timestamp: int) | Text(logs: string)

  /** A running or waiting account offers a view button, a success with a login time shows it, anything else its logs. */
  function Info(a: Account): (cell: InfoCell)
    ensures cell.ViewButton? <==> a.status == Running || a.status == WaitingForAction
    ensures cell.ViewButton? ==> cell.id == a.id
    ensures cell.LoginTime? <==> a.status == Success && a.lastLoginTimestamp != 0
    ensures cell.LoginTime? ==> cell.timestamp == a.lastLoginTimestamp
    ensures cell.Text? ==> cell.logs == a.logs
  {
    if a.status == WaitingForAction || a.status == Running then ViewButton(a.id)
    else if a.status == Success && a.lastLoginTimestamp != 0 then LoginTime(a.lastLoginTimestamp)
    else Text(a.logs)
  }

  /** What the run button does when clicked. */
  datatype RunClick = Disabled | Confirm(ids: seq<int>) | Send(ids: seq<int>)

  /** Whether a selected account is waiting for the user, who would lose that work. */
  predicate SelectionWaits(data: Option<seq<Account>>, selected: seq<int>) {
    data.Some? && exists i :: 0 <= i < |data.value| && data.value[i].id in selected && data.value[i].status == WaitingForAction
  }

  /** The run button: disabled without the run flag or a selection; asks first when a selected account waits. */
  function RunButton(runFlag: bool, selected: seq<int>, data: Option<seq<Account>>): (r: RunClick)
    ensures r.Disabled? <==> !runFlag || selected == []
    ensures r.Confirm? <==> runFlag && selected != [] && SelectionWaits(data, selected)
    ensures !r.Disabled? ==> r.ids == selected
  {
    if !runFlag || |selected| == 0 then Disabled
    else if data.Some? && AnyWaiting(data.value, selected) then Confirm(selected)
    else Send(selected)
  }

  /** `account?.some(a => a.status === WAITING_FOR_ACTION)` over the selected rows. */
  function AnyWaiting(rows: seq<Account>, selected: seq<int>): (b: bool)
    ensures b <==> exists i :: 0 <= i < |rows| && rows[i].id in selected && rows[i].status == WaitingForAction
    decreases |rows|
  {
    if |rows| == 0 then false
    else
      var rest := AnyWaiting(rows[1..], selected);
      assert forall i :: 1 <= i < |rows| ==> rows[i] == rows[1..][i - 1];
      (rows[0].id in selected && rows[0].status == WaitingForAction) || rest
  }
}
