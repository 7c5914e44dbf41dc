/**
 * The Account table and the operations the main process performs on it. The
 * table is the list of rows in id order; ids are generated increasing from 1.
 * Each operation that announces a change to the renderer (`accountDataChange`)
 * counts one notification.
 */
module AccountOperator {
  import opened Common
  import opened Strings
  import opened Entities

  /** The ids of the rows, in table order. */
  function Ids(rows: seq<Account>): (ids: seq<int>)
    ensures |ids| == |rows|
    ensures forall i :: 0 <= i < |rows| ==> ids[i] == rows[i].id
  {
    seq(|rows|, i requires 0 <= i < |rows| => rows[i].id)
  }

  /** Primary keys: positive, strictly increasing in table order, below the next id. */
  predicate WellKeyed(rows: seq<Account>, nextId: int) {
    (forall i :: 0 <= i < |rows| ==> 1 <= rows[i].id < nextId)
    && (forall i, j :: 0 <= i < j < |rows| ==> rows[i].id < rows[j].id)
  }

  /** Whether a table is well keyed depends on its ids alone. */
  lemma SameIdsWellKeyed(rows: seq<Account>, other: seq<Account>, nextId: int)
    requires Ids(rows) == Ids(other) && WellKeyed(rows, nextId)
    ensures WellKeyed(other, nextId)
  {
    forall i | 0 <= i < |other| ensures other[i].id == rows[i].id {
      assert other[i].id == Ids(other)[i];
    }
  }

  /** The emails stored in the table. */
  function Emails(rows: seq<Account>): (r: set<string>)
    ensures forall e :: e in r <==> exists i :: 0 <= i < |rows| && rows[i].email == e
  {
    set i | 0 <= i < |rows| :: rows[i].email
  }

  /** `find({ where: { id: In(ids) } })`: the stored rows whose id is listed, in table order. */
  function AccountsByIds(rows: seq<Account>, ids: seq<int>): (r: seq<Account>)
    ensures forall a :: a in r <==> a in rows && a.id in ids
  {
    Filter(rows, (a: Account) => a.id in ids)
  }

  /** The imported credentials whose email is not stored yet; repeats inside the batch stay. */
  function FreshCredentials(rows: seq<Account>, accounts: seq<Credentials>): (r: seq<Credentials>)
    ensures forall c :: c in r <==> c in accounts && c.email !in Emails(rows)
  {
    Filter(accounts, (c: Credentials) => c.email !in Emails(rows))
  }

  /** The rows `save` creates: status WAITING, empty logs, ids handed out from `start`. */
  function NewRows(accounts: seq<Credentials>, start: int): (r: seq<Account>)
    ensures |r| == |accounts|
    ensures forall i :: 0 <= i < |r| ==>
              r[i] == NewAccountRow(start + i, accounts[i].email, accounts[i].password, accounts[i].twoFactorCode)
    decreases |accounts|
  {
    if |accounts| == 0 then []
    else
      [NewAccountRow(start, accounts[0].email, accounts[0].password, accounts[0].twoFactorCode)]
      + NewRows(accounts[1..], start + 1)
  }

  /** Appending freshly keyed rows keeps the table well keyed. */
  lemma AppendNewRows(rows: seq<Account>, nextId: int, accounts: seq<Credentials>)
    requires WellKeyed(rows, nextId) && nextId >= 1
    ensures WellKeyed(rows + NewRows(accounts, nextId), nextId + |accounts|)
  {
  }

  /** A batch that repeats an unknown email inserts it twice: only stored emails are filtered. */
  lemma BatchRepeatsKept(rows: seq<Account>, c: Credentials)
    requires c.email !in Emails(rows)
    ensures FreshCredentials(rows, [c, c]) == [c, c]
  {
    FilterAll([c, c], (x: Credentials) => x.email !in Emails(rows));
  }

  /** The rows after `update(id, patch)`. */
  function PatchRows(rows: seq<Account>, id: int, p: AccountPatch): (r: seq<Account>)
    ensures |r| == |rows| && Ids(r) == Ids(rows)
    ensures forall i :: 0 <= i < |rows| && rows[i].id != id ==> r[i] == rows[i]
    ensures forall i :: 0 <= i < |rows| && rows[i].id == id ==> r[i] == ApplyPatch(rows[i], p)
  {
    seq(|rows|, i requires 0 <= i < |rows| => if rows[i].id == id then ApplyPatch(rows[i], p) else rows[i])
  }

  /** Whether a row with this id is stored (`findOne({ where: { id } })`). */
  predicate HasId(rows: seq<Account>, id: int) {
    exists i :: 0 <= i < |rows| && rows[i].id == id
  }

  /** The patch of `updateAccountsInBulk` applies when its id is truthy and names a stored row. */
  predicate Applies(rows: seq<Account>, p: AccountPatch) {
    p.id.Some? && p.id.value != 0 && HasId(rows, p.id.value)
  }

  /** The table after `updateAccountsInBulk(patches[..n])`, one patch after the other. */
  function BulkPatched(rows: seq<Account>, patches: seq<AccountPatch>): (r: seq<Account>)
    ensures |r| == |rows| && Ids(r) == Ids(rows)
    decreases |patches|
  {
    if |patches| == 0 then rows
    else
      var before := BulkPatched(rows, patches[..|patches| - 1]);
      var p := patches[|patches| - 1];
      if Applies(before, p) then PatchRows(before, p.id.value, p) else before
  }

  /** A row that no applicable patch names comes out of a bulk update unchanged. */
  lemma {:induction false} BulkPatchedUntouched(rows: seq<Account>, patches: seq<AccountPatch>, i: int)
    requires 0 <= i < |rows|
    requires forall k :: 0 <= k < |patches| ==> patches[k].id != Some(rows[i].id)
    ensures BulkPatched(rows, patches)[i] == rows[i]
    decreases |patches|
  {
    if |patches| > 0 {
      BulkPatchedUntouched(rows, patches[..|patches| - 1], i);
    }
  }

  /**
   * A stored row that exactly one patch names, with a truthy id, comes out of a
   * bulk update as that patch applied to it: the other patches leave it alone.
   */
  lemma {:induction false} BulkPatchedApplies(rows: seq<Account>, patches: seq<AccountPatch>, i: int, k: int)
    requires 0 <= i < |rows| && rows[i].id != 0
    requires 0 <= k < |patches| && patches[k].id == Some(rows[i].id)
    requires forall j :: 0 <= j < |patches| && j != k ==> patches[j].id != Some(rows[i].id)
    ensures BulkPatched(rows, patches)[i] == ApplyPatch(rows[i], patches[k])
    decreases |patches|
  {
    var init, p := patches[..|patches| - 1], patches[|patches| - 1];
    var before := BulkPatched(rows, init);
    assert before[i].id == Ids(before)[i] == Ids(rows)[i] == rows[i].id;
    if k == |patches| - 1 {
      BulkPatchedUntouched(rows, init, i);
      assert Applies(before, p);
    } else {
      BulkPatchedApplies(rows, init, i, k);
      if Applies(before, p) {
        assert p.id.value != rows[i].id;
      }
    }
  }

  /** Patches whose id is missing, zero or unknown change nothing. */
  lemma {:induction false} BulkPatchedSkipsUnknown(rows: seq<Account>, patches: seq<AccountPatch>)
    requires forall k :: 0 <= k < |patches| ==> !Applies(rows, patches[k])
    ensures BulkPatched(rows, patches) == rows
    decreases |patches|
  {
    if |patches| > 0 {
      BulkPatchedSkipsUnknown(rows, patches[..|patches| - 1]);
    }
  }

  /** The status `resetRunningAccountsStatus` leaves: RUNNING and WAITING_FOR_ACTION become WAITING. */
  function ResetStatus(s: Status): (r: Status)
    ensures r != Running && r != WaitingForAction
    ensures s != Running && s != WaitingForAction ==> r == s
  {
    if s == Running || s == WaitingForAction then Waiting else s
  }

  /** The table after `resetRunningAccountsStatus`. */
  function ResetRows(rows: seq<Account>): (r: seq<Account>)
    ensures |r| == |rows| && Ids(r) == Ids(rows)
    ensures forall i :: 0 <= i < |rows| ==> r[i] == rows[i].(status := ResetStatus(rows[i].status))
  {
    seq(|rows|, i requires 0 <= i < |rows| => rows[i].(status := ResetStatus(rows[i].status)))
  }

  /** After a reset no row is RUNNING or WAITING_FOR_ACTION, and resetting again changes nothing. */
  lemma ResetRowsSettles(rows: seq<Account>)
    ensures forall i :: 0 <= i < |rows| ==> ResetRows(rows)[i].status !in {Running, WaitingForAction}
    ensures ResetRows(ResetRows(rows)) == ResetRows(rows)
  {
  }

  /** Deleting rows keeps the order of the others. */
  function DeleteRows(rows: seq<Account>, ids: seq<int>): (r: seq<Account>)
    ensures forall a :: a in r <==> a in rows && a.id !in ids
    ensures |r| <= |rows|
  {
    Filter(rows, (a: Account) => a.id !in ids)
  }

  /** Dropping rows from a well-keyed table keeps it well keyed. */
  lemma {:induction false} FilterKeepsWellKeyed(rows: seq<Account>, nextId: int, keep: Account -> bool)
    requires WellKeyed(rows, nextId)
    ensures WellKeyed(Filter(rows, keep), nextId)
    decreases |rows|
  {
    if |rows| > 0 {
      WellKeyedTail(rows, nextId);
      FilterKeepsWellKeyed(rows[1..], nextId, keep);
      if keep(rows[0]) {
        WellKeyedCons(rows[0], Filter(rows[1..], keep), nextId);
      }
    }
  }

  /** The rows after the first of a well-keyed table are well keyed, with larger ids than the first. */
  lemma WellKeyedTail(rows: seq<Account>, nextId: int)
    requires |rows| > 0 && WellKeyed(rows, nextId)
    ensures WellKeyed(rows[1..], nextId)
    ensures forall a :: a in rows[1..] ==> rows[0].id < a.id
  {
    var tail := rows[1..];
    forall i | 0 <= i < |tail| ensures tail[i] == rows[i + 1] { }
  }

  /** A row in front of a well-keyed table with larger ids gives a well-keyed table. */
  lemma WellKeyedCons(a: Account, rest: seq<Account>, nextId: int)
    requires 1 <= a.id < nextId && WellKeyed(rest, nextId)
    requires forall b :: b in rest ==> a.id < b.id
    ensures WellKeyed([a] + rest, nextId)
  {
    var r := [a] + rest;
    forall i, j | 0 <= i < j < |r| ensures r[i].id < r[j].id {
      assert r[j] == rest[j - 1] && r[j] in rest;
      if i > 0 {
        assert r[i] == rest[i - 1];
      }
    }
  }

  class AccountStore {
    var rows: seq<Account>
    var nextId: int
    /** How many `accountDataChange` messages were sent. */
    var notifications: nat

    ghost predicate Valid()
      reads this
    {
      nextId >= 1 && WellKeyed(rows, nextId)
    }

    constructor ()
      ensures Valid() && rows == [] && nextId == 1 && notifications == 0
    {
      rows := [];
      nextId := 1;
      notifications := 0;
    }

    /** `getAccountsByIds(ids)` */
    method GetAccountsByIds(ids: seq<int>) returns (r: seq<Account>)
      requires Valid()
      ensures r == AccountsByIds(rows, ids)
      ensures forall a :: a in r <==> a in rows && a.id in ids
    {
      r := AccountsByIds(rows, ids);
    }

    /**
     * `addAccounts(accounts)`: credentials whose email is already stored are
     * dropped, the rest are saved as new WAITING rows (nothing is saved when none
     * is left), and the change is announced in any case.
     */
    method AddAccounts(accounts: seq<Credentials>)
      requires Valid()
      modifies this
      ensures Valid()
      ensures var added := FreshCredentials(old(rows), accounts);
              rows == old(rows) + NewRows(added, old(nextId)) && nextId == old(nextId) + |added|
      ensures notifications == old(notifications) + 1
    {
      var existing := Emails(rows);
      var added := Filter(accounts, (c: Credentials) => c.email !in existing);
      if |added| > 0 {
        AppendNewRows(rows, nextId, added);
        rows := rows + NewRows(added, nextId);
        nextId := nextId + |added|;
      }
      notifications := notifications + 1;
    }

    /** `deleteAccounts(ids)`: exactly the listed rows go. */
    method DeleteAccounts(ids: seq<int>)
      requires Valid()
      modifies this
      ensures Valid()
      ensures rows == DeleteRows(old(rows), ids) && nextId == old(nextId)
      ensures notifications == old(notifications) + 1
    {
      FilterKeepsWellKeyed(rows, nextId, (a: Account) => a.id !in ids);
      rows := DeleteRows(rows, ids);
      notifications := notifications + 1;
    }

    /** `updateAccount(id, patch)`: the row with that id, if any, takes the patch. */
    method UpdateAccount(id: int, patch: AccountPatch)
      requires Valid()
      modifies this
      ensures Valid()
      ensures rows == PatchRows(old(rows), id, patch) && nextId == old(nextId)
      ensures notifications == old(notifications) + 1
    {
      rows := PatchRows(rows, id, patch);
      notifications := notifications + 1;
    }

    /** `updateAccountsInBulk(patches)`: each patch with a truthy, known id is applied in turn. */
    method UpdateAccountsInBulk(patches: seq<AccountPatch>)
      requires Valid()
      modifies this
      ensures Valid()
      ensures rows == BulkPatched(old(rows), patches) && nextId == old(nextId)
      ensures notifications == old(notifications) + 1
    {
      for n := 0 to |patches|
        invariant rows == BulkPatched(old(rows), patches[..n])
        invariant Valid() && nextId == old(nextId) && notifications == old(notifications)
      {
        assert patches[..n + 1][..n] == patches[..n];
        var p := patches[n];
        if p.id.Some? && p.id.value != 0 {
          if exists i :: 0 <= i < |rows| && rows[i].id == p.id.value {
            SameIdsWellKeyed(rows, PatchRows(rows, p.id.value, p), nextId);
            rows := PatchRows(rows, p.id.value, p);
          }
        }
      }
      assert patches[..|patches|] == patches;
      notifications := notifications + 1;
    }

    /** `resetRunningAccountsStatus()`; it announces nothing. */
    method ResetRunningAccountsStatus()
      requires Valid()
      modifies this
      ensures Valid()
      ensures rows == ResetRows(old(rows)) && nextId == old(nextId)
      ensures notifications == old(notifications)
    {
      rows := ResetRows(rows);
    }
  }
}
