/**
 * The persisted records: the five-valued account status, the Account row with
 * its column defaults, partial updates of a row, and the Settings record.
 */
module Entities {
  import opened Common

  /** The status of an account and of the job that works on it. */
  datatype Status = Waiting | Running | WaitingForAction | Error | Success

  /** The string a status is stored as. */
  function StatusName(s: Status): (name: string)
    ensures name != "" && ' ' !in name
  {
    match s
    case Waiting => "waiting"
    case Running => "running"
    case WaitingForAction => "waiting_for_action"
    case Error => "error"
    case Success => "success"
  }

  /** Reading a stored status string back; anything else is not a status. */
  function ParseStatus(name: string): (r: Option<Status>)
    ensures r.Some? ==> StatusName(r.value) == name
  {
    if name == "waiting" then Some(Waiting)
    else if name == "running" then Some(Running)
    else if name == "waiting_for_action" then Some(WaitingForAction)
    else if name == "error" then Some(Error)
    else if name == "success" then Some(Success)
    else None
  }

  /** Every status is read back from the string it is stored as, so the names are distinct. */
  lemma ParseStatusName(s: Status)
    ensures ParseStatus(StatusName(s)) == Some(s)
  {
  }

  /** One row of the Account table. */
  datatype Account = Account(
    id: int,
    email: string,
    password: string,
    twoFactorCode: string,
    status: Status,
    logs: string,
    lastLoginTimestamp: int)

  /** `Pick<Account, 'email' | 'password' | 'twoFactorCode'>`: what an import supplies. */
  datatype Credentials = Credentials(email: string, password: string, twoFactorCode: string)

  /** A row as the table creates it when only the credentials are given. */
  function NewAccountRow(id: int, email: string, password: string, twoFactorCode: string): (a: Account)
    ensures a.id == id && a.email == email && a.password == password && a.twoFactorCode == twoFactorCode
    ensures a.status == Waiting && a.logs == "" && a.lastLoginTimestamp == 0
  {
    Account(id, email, password, twoFactorCode, Waiting, "", 0)
  }

  /** A `Partial<Account>`: the fields present overwrite, the absent ones are kept. */
  datatype AccountPatch = AccountPatch(
    id: Option<int>,
    email: Option<string>,
    password: Option<string>,
    twoFactorCode: Option<string>,
    status: Option<Status>,
    logs: Option<string>,
    lastLoginTimestamp: Option<int>)

  function Pick<T>(o: Option<T>, old_: T): T {
    if o.Some? then o.value else old_
  }

  /** The row after `update(id, patch)`; the row keeps its own id. */
  function ApplyPatch(a: Account, p: AccountPatch): (r: Account)
    ensures r.id == a.id
    ensures p.status.Some? ==> r.status == p.status.value
    ensures p.status.None? ==> r.status == a.status
    ensures p.email.Some? ==> r.email == p.email.value
    ensures p.email.None? ==> r.email == a.email
    ensures p.password.Some? ==> r.password == p.password.value
    ensures p.password.None? ==> r.password == a.password
    ensures p.twoFactorCode.Some? ==> r.twoFactorCode == p.twoFactorCode.value
    ensures p.twoFactorCode.None? ==> r.twoFactorCode == a.twoFactorCode
    ensures p.logs.Some? ==> r.logs == p.logs.value
    ensures p.logs.None? ==> r.logs == a.logs
    ensures p.lastLoginTimestamp.Some? ==> r.lastLoginTimestamp == p.lastLoginTimestamp.value
    ensures p.lastLoginTimestamp.None? ==> r.lastLoginTimestamp == a.lastLoginTimestamp
  {
    Account(a.id, Pick(p.email, a.email), Pick(p.password, a.password),
            Pick(p.twoFactorCode, a.twoFactorCode), Pick(p.status, a.status),
            Pick(p.logs, a.logs), Pick(p.lastLoginTimestamp, a.lastLoginTimestamp))
  }

  /** Applying the same patch twice is applying it once. */
  lemma ApplyPatchIdempotent(a: Account, p: AccountPatch)
    ensures ApplyPatch(ApplyPatch(a, p), p) == ApplyPatch(a, p)
  {
  }

  const NoChange := AccountPatch(None, None, None, None, None, None, None)

  /** `{ id, status }` */
  function StatusPatch(id: int, s: Status): (p: AccountPatch)
    ensures p.id == Some(id)
    ensures forall a :: ApplyPatch(a, p) == a.(status := s)
  {
    NoChange.(id := Some(id), status := Some(s))
  }

  /** `{ status }` */
  function SetStatus(s: Status): AccountPatch {
    NoChange.(status := Some(s))
  }

  /** `{ status: ERROR, logs: message }` */
  function SetError(message: string): (p: AccountPatch)
    ensures forall a :: ApplyPatch(a, p) == a.(status := Error, logs := message)
  {
    NoChange.(status := Some(Error), logs := Some(message))
  }

  /** `{ status: SUCCESS, lastLoginTimestamp: now }` */
  function SetSuccess(now: int): (p: AccountPatch)
    ensures forall a :: ApplyPatch(a, p) == a.(status := Success, lastLoginTimestamp := now)
  {
    NoChange.(status := Some(Success), lastLoginTimestamp := Some(now))
  }

  /** The settings record. */
  datatype Settings = Settings(chromeExecutablePath: string, runFlag: bool)

  /** The record written when no settings exist yet. */
  const DefaultSettings := Settings("", false)
}
