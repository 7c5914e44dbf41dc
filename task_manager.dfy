/**
 * The job scheduler of the main process. It keeps a map from account id to a
 * job (the account, the job status, a queue order and the browser session once
 * the launch returned it), in the insertion order of a JavaScript `Map`. Two
 * timer ticks drive it: a dispatch tick that starts the next waiting job while
 * fewer than two run, and a flush tick that writes the (id, status) list to the
 * Account table when it changed.
 *
 * Everything the scheduler asks of the outside world (closing and killing
 * browsers, writing to the Account table, starting a login, focusing a window)
 * is appended to the `effects` trace instead of being performed.
 */
module TaskManager {
  import opened Common
  import opened Strings
  import opened Entities
  import opened Base64

  /** A browser session handed back by a successful launch. */
  type SessionId = nat

  /** One entry of `accountMap`. */
  datatype Job = Job(account: Account, status: Status, order: int, session: Option<SessionId>)

  datatype Signal = SIGKILL | SIGTERM

  /** A request to the outside world, in the order the scheduler makes it. */
  datatype Effect =
    | CloseBrowser(session: SessionId)
    | KillProcess(session: SessionId, signal: Signal)
    | KillByWindowName(name: string)
    | UpdateAccount(id: int, patch: AccountPatch)
    | BulkUpdate(patches: seq<AccountPatch>)
    | StartLogin(account: Account)
    | BringToFront(session: SessionId, email: string)

  /** One element of the list the flush tick writes. */
  datatype StatusEntry = StatusEntry(id: int, status: Status)

  /** The log written for a running job that a cleanup evicts. */
  const ClearedLog := "运行中账号被清理"

  predicate Distinct(keys: seq<int>) {
    forall i, j :: 0 <= i < j < |keys| ==> keys[i] != keys[j]
  }

  /** `keys` without `k`. */
  function Without(keys: seq<int>, k: int): (r: seq<int>)
    ensures forall x :: x in r <==> x in keys && x != k
    ensures Distinct(keys) ==> Distinct(r)
    decreases |keys|
  {
    if |keys| == 0 then []
    else if keys[0] == k then Without(keys[1..], k)
    else
      assert Distinct(keys) ==> Distinct(keys[1..]) && keys[0] !in keys[1..];
      [keys[0]] + Without(keys[1..], k)
  }

  /** A JavaScript `Map` from account id to job: the keys in insertion order and the entries. */
  datatype JobMap = JobMap(keys: seq<int>, entries: map<int, Job>) {
    ghost predicate WellFormed() {
      Distinct(keys)
      && (forall i :: 0 <= i < |keys| ==> keys[i] in entries)
      && (forall k :: k in entries ==> k in keys)
    }

    /** `set(k, j)`: a new key goes last, an existing key keeps its place. */
    function Put(k: int, j: Job): (r: JobMap)
      ensures WellFormed() ==> r.WellFormed()
      ensures k in r.entries && r.entries[k] == j
      ensures forall x :: x != k ==> (x in r.entries <==> x in entries)
      ensures forall x :: x != k && x in entries ==> r.entries[x] == entries[x]
      ensures k in keys ==> r.keys == keys
    {
      JobMap(if k in keys then keys else keys + [k], entries[k := j])
    }

    /** `delete(k)` */
    function Remove(k: int): (r: JobMap)
      ensures WellFormed() ==> r.WellFormed()
      ensures k !in r.entries
      ensures forall x :: x != k ==> (x in r.entries <==> x in entries)
      ensures forall x :: x != k && x in entries ==> r.entries[x] == entries[x]
    {
      var r := JobMap(Without(keys, k), entries - {k});
      assert WellFormed() ==> forall i :: 0 <= i < |r.keys| ==> r.keys[i] in keys;
      r
    }

    /** `Array.from(values())` */
    function Values(): (r: seq<Job>)
      requires WellFormed()
      ensures |r| == |keys| && forall i :: 0 <= i < |keys| ==> r[i] == entries[keys[i]]
    {
      seq(|keys|, i requires 0 <= i < |keys| => entries[keys[i]])
    }
  }

  const EmptyMap := JobMap([], map[])

  /** The ids of the RUNNING jobs; WAITING_FOR_ACTION jobs are not among them. */
  function RunningIds(m: JobMap): set<int> {
    set k | k in m.entries && m.entries[k].status == Running
  }

  /**
   * What the scheduler keeps true of its map: each job is filed under its
   * account's id, orders are positive and pairwise distinct, and at most two
   * jobs run at once.
   */
  ghost predicate Sound(m: JobMap) {
    m.WellFormed()
    && (forall k :: k in m.entries ==> m.entries[k].account.id == k && m.entries[k].order >= 1)
    && (forall k, k' :: k in m.entries && k' in m.entries && k != k' ==> m.entries[k].order != m.entries[k'].order)
    && |RunningIds(m)| <= 2
  }

  /** Keeping only some of the entries, unchanged, keeps the map sound. */
  lemma SubMapSound(m: JobMap, r: JobMap)
    requires Sound(m) && r.WellFormed()
    requires forall k :: k in r.entries ==> k in m.entries && r.entries[k] == m.entries[k]
    ensures Sound(r)
  {
    forall k | k in RunningIds(r)
      ensures k in RunningIds(m)
    {
      assert r.entries[k] == m.entries[k];
    }
    SubsetCard(RunningIds(r), RunningIds(m));
  }

  /** The largest order in the map, 0 for an empty map (the `reduce` in `run`). */
  function MaxOrderIn(keys: seq<int>, entries: map<int, Job>): (r: int)
    requires forall i :: 0 <= i < |keys| ==> keys[i] in entries
    ensures r >= 0
    ensures forall i :: 0 <= i < |keys| ==> entries[keys[i]].order <= r
    ensures r == 0 || exists i :: 0 <= i < |keys| && entries[keys[i]].order == r
    decreases |keys|
  {
    if |keys| == 0 then 0
    else
      var rest := MaxOrderIn(keys[1..], entries);
      assert forall i :: 1 <= i < |keys| ==> keys[i] == keys[1..][i - 1];
      if entries[keys[0]].order > rest then entries[keys[0]].order else rest
  }

  function MaxOrder(m: JobMap): (r: int)
    requires m.WellFormed()
    ensures r >= 0 && forall k :: k in m.entries ==> m.entries[k].order <= r
  {
    MaxOrderIn(m.keys, m.entries)
  }

  /** The map together with the effects requested so far. */
  datatype Book = Book(jobs: JobMap, effects: seq<Effect>)

  /**
   * One iteration of the loop in `run`: the browser of a job already filed for
   * the account is closed, then the account is filed as WAITING, without a
   * session, behind every job in the map.
   */
  function Enqueue(b: Book, a: Account): (r: Book)
    requires b.jobs.WellFormed()
    ensures r.jobs.WellFormed()
    ensures a.id in r.jobs.entries
    ensures r.jobs.entries[a.id].account == a && r.jobs.entries[a.id].status == Waiting
    ensures r.jobs.entries[a.id].session == None
    ensures forall k :: k != a.id ==> (k in r.jobs.entries <==> k in b.jobs.entries)
    ensures forall k :: k != a.id && k in b.jobs.entries ==> r.jobs.entries[k] == b.jobs.entries[k]
    ensures forall k :: k in b.jobs.entries && k != a.id ==> r.jobs.entries[k].order < r.jobs.entries[a.id].order
    ensures a.id in b.jobs.entries && b.jobs.entries[a.id].session.Some? ==>
              r.effects == b.effects + [CloseBrowser(b.jobs.entries[a.id].session.value)]
    ensures a.id !in b.jobs.entries || b.jobs.entries[a.id].session.None? ==> r.effects == b.effects
  {
    var prior := if a.id in b.jobs.entries then b.jobs.entries[a.id].session else None;
    var effects := if prior.Some? then b.effects + [CloseBrowser(prior.value)] else b.effects;
    Book(b.jobs.Put(a.id, Job(a, Waiting, MaxOrder(b.jobs) + 1, None)), effects)
  }

  /** Enqueuing keeps the map sound: the new order is above every other, and a WAITING job does not run. */
  lemma EnqueueSound(b: Book, a: Account)
    requires Sound(b.jobs)
    ensures Sound(Enqueue(b, a).jobs)
  {
    var r := Enqueue(b, a).jobs;
    assert RunningIds(r) <= RunningIds(b.jobs);
    SubsetCard(RunningIds(r), RunningIds(b.jobs));
  }

  /** The loop of `run` over the fetched accounts. */
  function EnqueueAll(b: Book, accounts: seq<Account>): (r: Book)
    requires b.jobs.WellFormed()
    ensures r.jobs.WellFormed()
    decreases |accounts|
  {
    if |accounts| == 0 then b
    else Enqueue(EnqueueAll(b, accounts[..|accounts| - 1]), accounts[|accounts| - 1])
  }

  lemma {:induction false} EnqueueAllSound(b: Book, accounts: seq<Account>)
    requires Sound(b.jobs)
    ensures Sound(EnqueueAll(b, accounts).jobs)
    decreases |accounts|
  {
    if |accounts| > 0 {
      EnqueueAllSound(b, accounts[..|accounts| - 1]);
      EnqueueSound(EnqueueAll(b, accounts[..|accounts| - 1]), accounts[|accounts| - 1]);
    }
  }

  /** After `run`, every fetched account has a WAITING job without a session. */
  lemma {:induction false} EnqueueAllWaiting(b: Book, accounts: seq<Account>)
    requires b.jobs.WellFormed()
    ensures var r := EnqueueAll(b, accounts).jobs;
            forall i :: 0 <= i < |accounts| ==>
              accounts[i].id in r.entries && r.entries[accounts[i].id].status == Waiting
              && r.entries[accounts[i].id].session == None
    decreases |accounts|
  {
    if |accounts| > 0 {
      var init := accounts[..|accounts| - 1];
      EnqueueAllWaiting(b, init);
      forall i | 0 <= i < |accounts| - 1
        ensures accounts[i] == init[i]
      {
      }
    }
  }

  /** Jobs of accounts the batch does not name are left as they were. */
  lemma {:induction false} EnqueueAllUntouched(b: Book, accounts: seq<Account>, k: int)
    requires b.jobs.WellFormed()
    requires forall i :: 0 <= i < |accounts| ==> accounts[i].id != k
    ensures var r := EnqueueAll(b, accounts).jobs;
            (k in r.entries <==> k in b.jobs.entries) && (k in r.entries ==> r.entries[k] == b.jobs.entries[k])
    decreases |accounts|
  {
    if |accounts| > 0 {
      EnqueueAllUntouched(b, accounts[..|accounts| - 1], k);
    }
  }

  /** Within a batch of distinct accounts, a later account gets a larger order. */
  lemma {:induction false} EnqueueAllOrdered(b: Book, accounts: seq<Account>, i: int, j: int)
    requires b.jobs.WellFormed()
    requires forall x, y :: 0 <= x < y < |accounts| ==> accounts[x].id != accounts[y].id
    requires 0 <= i < j < |accounts|
    ensures var r := EnqueueAll(b, accounts).jobs;
            accounts[i].id in r.entries && accounts[j].id in r.entries
            && r.entries[accounts[i].id].order < r.entries[accounts[j].id].order
    decreases |accounts|
  {
    var init := accounts[..|accounts| - 1];
    var last := accounts[|accounts| - 1];
    assert init[i] == accounts[i] && accounts[i].id != last.id;
    if j < |accounts| - 1 {
      EnqueueAllOrdered(b, init, i, j);
      assert init[j] == accounts[j] && accounts[j].id != last.id;
    } else {
      EnqueueAllWaiting(b, init);
    }
  }

  /** The patches `run` sends to the Account table: every fetched account back to WAITING. */
  function WaitingPatches(accounts: seq<Account>): (r: seq<AccountPatch>)
    ensures |r| == |accounts|
    ensures forall i :: 0 <= i < |accounts| ==> r[i].id == Some(accounts[i].id) && r[i].status == Some(Waiting)
  {
    seq(|accounts|, i requires 0 <= i < |accounts| => StatusPatch(accounts[i].id, Waiting))
  }

  /** The ids of the SUCCESS jobs, in map order. */
  function SuccessIds(m: JobMap): (r: seq<int>)
    ensures forall k :: k in r <==> k in m.keys && k in m.entries && m.entries[k].status == Success
  {
    Filter(m.keys, (k: int) => k in m.entries && m.entries[k].status == Success)
  }

  /** Deleting the listed keys one after the other. */
  function RemoveAll(m: JobMap, ids: seq<int>): (r: JobMap)
    requires m.WellFormed()
    ensures r.WellFormed()
    decreases |ids|
  {
    if |ids| == 0 then m else RemoveAll(m, ids[..|ids| - 1]).Remove(ids[|ids| - 1])
  }

  /** Deleting keys keeps the map sound. */
  lemma RemoveAllSound(m: JobMap, ids: seq<int>)
    requires Sound(m)
    ensures Sound(RemoveAll(m, ids))
  {
    RemoveAllEntries(m, ids);
    SubMapSound(m, RemoveAll(m, ids));
  }

  /** Deleting keys removes exactly those keys and leaves the other entries as they were. */
  lemma {:induction false} RemoveAllEntries(m: JobMap, ids: seq<int>)
    requires m.WellFormed()
    ensures var r := RemoveAll(m, ids);
            forall k :: (k in r.entries <==> k in m.entries && k !in ids) && (k in r.entries ==> r.entries[k] == m.entries[k])
    decreases |ids|
  {
    if |ids| > 0 {
      var init, last := ids[..|ids| - 1], ids[|ids| - 1];
      RemoveAllEntries(m, init);
      assert RemoveAll(m, ids) == RemoveAll(m, init).Remove(last);
      assert ids == init + [last];
      assert forall k :: k in ids <==> k in init || k == last;
    }
  }

  /** `cleanUpSuccessAccounts` removes exactly the SUCCESS jobs; every other job stays as it was. */
  lemma RemoveSuccessExactly(m: JobMap)
    requires m.WellFormed()
    ensures var r := RemoveAll(m, SuccessIds(m));
            forall k :: (k in r.entries <==> k in m.entries && m.entries[k].status != Success)
                        && (k in r.entries ==> r.entries[k] == m.entries[k])
  {
    RemoveAllEntries(m, SuccessIds(m));
  }

  /** The state of a `cleanUp` loop: the book, and whether `btoa` threw and ended the loop. */
  datatype Cleaning = Cleaning(book: Book, aborted: bool)

  /**
   * The end of one `cleanUp` iteration: on a complete cleanup the window is
   * killed by name and the session closed and sent SIGTERM, whatever the status.
   */
  function Finish(b: Book, job: Job, name: Option<string>, full: bool): (r: Cleaning)
    ensures r.book.jobs == b.jobs
    ensures r.aborted <==> full && name.None?
  {
    if !full then Cleaning(b, false)
    else if name.None? then Cleaning(b, true)
    else
      var closing := if job.session.Some? then [CloseBrowser(job.session.value), KillProcess(job.session.value, SIGTERM)] else [];
      Cleaning(Book(b.jobs, b.effects + [KillByWindowName(name.value)] + closing), false)
  }

  /**
   * One iteration of the `cleanUp` loop over a job of the snapshot. A RUNNING job
   * has its browser closed and killed, its window killed by name, is deleted
   * and is written back as ERROR; WAITING, ERROR and SUCCESS jobs are deleted
   * silently; WAITING_FOR_ACTION jobs stay. An email `btoa` rejects ends the loop.
   */
  function CleanOne(c: Cleaning, job: Job, full: bool): (r: Cleaning)
    requires c.book.jobs.WellFormed()
    ensures r.book.jobs.WellFormed()
    ensures c.aborted ==> r == c
    ensures c.book.effects <= r.book.effects
  {
    if c.aborted then c
    else
      var id := job.account.id;
      var name := WindowName(job.account.email);
      var jobs := c.book.jobs;
      if job.status == Running then
        var closed := c.book.effects
          + (if job.session.Some? then
               [CloseBrowser(job.session.value), KillProcess(job.session.value, SIGKILL), KillProcess(job.session.value, SIGTERM)]
             else []);
        if name.None? then Cleaning(Book(jobs, closed), true)
        else Finish(Book(jobs.Remove(id), closed + [KillByWindowName(name.value), UpdateAccount(id, SetError(ClearedLog))]),
                    job, name, full)
      else if job.status == WaitingForAction then Finish(Book(jobs, c.book.effects), job, name, full)
      else Finish(Book(jobs.Remove(id), c.book.effects), job, name, full)
  }

  /** The `cleanUp` loop over the first jobs of the snapshot. */
  function CleanAll(c: Cleaning, jobs: seq<Job>, full: bool): (r: Cleaning)
    requires c.book.jobs.WellFormed()
    ensures r.book.jobs.WellFormed()
    ensures c.book.effects <= r.book.effects
    decreases |jobs|
  {
    if |jobs| == 0 then c else CleanOne(CleanAll(c, jobs[..|jobs| - 1], full), jobs[|jobs| - 1], full)
  }

  /** One more iteration of the loop visits the next job of the snapshot. */
  lemma CleanAllStep(c: Cleaning, jobs: seq<Job>, i: nat, full: bool)
    requires c.book.jobs.WellFormed() && i < |jobs|
    ensures CleanAll(c, jobs[..i + 1], full) == CleanOne(CleanAll(c, jobs[..i], full), jobs[i], full)
  {
    assert jobs[..i + 1][..i] == jobs[..i];
  }

  /** Once `btoa` has thrown, the rest of the snapshot is not visited. */
  lemma {:induction false} CleanAllStaysAborted(c: Cleaning, jobs: seq<Job>, i: int, full: bool)
    requires c.book.jobs.WellFormed() && 0 <= i <= |jobs|
    requires CleanAll(c, jobs[..i], full).aborted
    ensures CleanAll(c, jobs, full) == CleanAll(c, jobs[..i], full)
    decreases |jobs|
  {
    if |jobs| > i {
      var init := jobs[..|jobs| - 1];
      assert init[..i] == jobs[..i];
      CleanAllStaysAborted(c, init, i, full);
    } else {
      assert jobs[..i] == jobs;
    }
  }

  /** Where the loop stops, at the end of the snapshot or after `btoa` threw, the cleanup is complete. */
  lemma CleanAllStopped(c: Cleaning, jobs: seq<Job>, i: int, full: bool)
    requires c.book.jobs.WellFormed() && 0 <= i <= |jobs|
    requires i == |jobs| || CleanAll(c, jobs[..i], full).aborted
    ensures CleanAll(c, jobs, full) == CleanAll(c, jobs[..i], full)
  {
    if i == |jobs| {
      assert jobs[..i] == jobs;
    } else {
      CleanAllStaysAborted(c, jobs, i, full);
    }
  }

  /** The loop runs to the end when every email of the snapshot is Latin-1. */
  lemma {:induction false} CleanAllCompletes(c: Cleaning, jobs: seq<Job>, full: bool)
    requires c.book.jobs.WellFormed() && !c.aborted
    requires forall i :: 0 <= i < |jobs| ==> IsLatin1(jobs[i].account.email)
    ensures !CleanAll(c, jobs, full).aborted
    decreases |jobs|
  {
    if |jobs| > 0 {
      CleanAllCompletes(c, jobs[..|jobs| - 1], full);
    }
  }

  /** A job of the snapshot the loop evicts: anything not WAITING_FOR_ACTION. */
  predicate Evicted(jobs: seq<Job>, k: int) {
    exists i :: 0 <= i < |jobs| && jobs[i].account.id == k && jobs[i].status != WaitingForAction
  }

  /**
   * A cleanup that ran to the end evicted exactly the visited jobs that were not
   * WAITING_FOR_ACTION; the entries it kept are unchanged.
   */
  lemma {:induction false} CleanAllEntries(c: Cleaning, jobs: seq<Job>, full: bool)
    requires c.book.jobs.WellFormed()
    requires !CleanAll(c, jobs, full).aborted
    ensures var r := CleanAll(c, jobs, full).book.jobs;
            forall k :: (k in r.entries <==> k in c.book.jobs.entries && !Evicted(jobs, k))
                        && (k in r.entries ==> r.entries[k] == c.book.jobs.entries[k])
    decreases |jobs|
  {
    if |jobs| > 0 {
      var init := jobs[..|jobs| - 1];
      var last := jobs[|jobs| - 1];
      var before := CleanAll(c, init, full);
      assert !before.aborted;
      CleanAllEntries(c, init, full);
      forall k
        ensures Evicted(jobs, k) <==> Evicted(init, k) || (last.account.id == k && last.status != WaitingForAction)
      {
        EvictedLast(jobs, k);
      }
    }
  }

  /** The snapshot evicts a job exactly when its first part does or its last job is that one. */
  lemma EvictedLast(jobs: seq<Job>, k: int)
    requires |jobs| > 0
    ensures var init, last := jobs[..|jobs| - 1], jobs[|jobs| - 1];
            Evicted(jobs, k) <==> Evicted(init, k) || (last.account.id == k && last.status != WaitingForAction)
  {
    var init := jobs[..|jobs| - 1];
    if Evicted(jobs, k) {
      var i :| 0 <= i < |jobs| && jobs[i].account.id == k && jobs[i].status != WaitingForAction;
      if i < |jobs| - 1 {
        assert init[i] == jobs[i];
      }
    }
    if Evicted(init, k) {
      var i :| 0 <= i < |init| && init[i].account.id == k && init[i].status != WaitingForAction;
      assert jobs[i] == init[i];
    }
  }

  /** Whatever the loop visited, the map only lost entries. */
  lemma {:induction false} CleanAllShrinks(c: Cleaning, jobs: seq<Job>, full: bool)
    requires c.book.jobs.WellFormed()
    ensures var r := CleanAll(c, jobs, full).book.jobs;
            forall k :: k in r.entries ==> k in c.book.jobs.entries && r.entries[k] == c.book.jobs.entries[k]
    decreases |jobs|
  {
    if |jobs| > 0 {
      CleanAllShrinks(c, jobs[..|jobs| - 1], full);
    }
  }

  /** The cleanup loop keeps the map sound, whether or not it ran to the end. */
  lemma CleanAllSound(c: Cleaning, jobs: seq<Job>, full: bool)
    requires Sound(c.book.jobs)
    ensures Sound(CleanAll(c, jobs, full).book.jobs)
  {
    CleanAllShrinks(c, jobs, full);
    SubMapSound(c.book.jobs, CleanAll(c, jobs, full).book.jobs);
  }

  /** A cleanup that ran to the end wrote every visited RUNNING job back as ERROR with the cleanup log. */
  lemma {:induction false} CleanAllReportsRunning(c: Cleaning, jobs: seq<Job>, full: bool)
    requires c.book.jobs.WellFormed()
    requires !CleanAll(c, jobs, full).aborted
    ensures var effects := CleanAll(c, jobs, full).book.effects;
            forall i :: 0 <= i < |jobs| && jobs[i].status == Running ==>
              UpdateAccount(jobs[i].account.id, SetError(ClearedLog)) in effects
    decreases |jobs|
  {
    if |jobs| > 0 {
      var init, last := jobs[..|jobs| - 1], jobs[|jobs| - 1];
      var before := CleanAll(c, init, full);
      var after := CleanAll(c, jobs, full);
      assert after == CleanOne(before, last, full);
      assert !before.aborted;
      CleanAllReportsRunning(c, init, full);
      if last.status == Running {
        CleanOneReportsRunning(before, last, full);
      }
      forall i | 0 <= i < |jobs| - 1 && jobs[i].status == Running
        ensures UpdateAccount(jobs[i].account.id, SetError(ClearedLog)) in after.book.effects
      {
        assert init[i] == jobs[i];
        InPrefix(before.book.effects, after.book.effects, UpdateAccount(jobs[i].account.id, SetError(ClearedLog)));
      }
    }
  }

  /** A RUNNING job the loop visits to the end is written back as ERROR with the cleanup log. */
  lemma CleanOneReportsRunning(c: Cleaning, job: Job, full: bool)
    requires c.book.jobs.WellFormed() && !c.aborted && job.status == Running
    requires !CleanOne(c, job, full).aborted
    ensures UpdateAccount(job.account.id, SetError(ClearedLog)) in CleanOne(c, job, full).book.effects
  {
    var id := job.account.id;
    var name := WindowName(job.account.email);
    var closed := c.book.effects
      + (if job.session.Some? then
           [CloseBrowser(job.session.value), KillProcess(job.session.value, SIGKILL), KillProcess(job.session.value, SIGTERM)]
         else []);
    var b := Book(c.book.jobs.Remove(id), closed + [KillByWindowName(name.value), UpdateAccount(id, SetError(ClearedLog))]);
    assert CleanOne(c, job, full) == Finish(b, job, name, full);
    assert UpdateAccount(id, SetError(ClearedLog)) in b.effects;
    InPrefix(b.effects, Finish(b, job, name, full).book.effects, UpdateAccount(id, SetError(ClearedLog)));
  }

  /** An element of a prefix is an element of the whole. */
  lemma InPrefix<T>(a: seq<T>, b: seq<T>, x: T)
    requires a <= b && x in a
    ensures x in b
  {
    var n :| 0 <= n < |a| && a[n] == x;
    assert b[n] == x;
  }

  /**
   * `cleanUp` over the whole map, when no email stops it: the map keeps exactly
   * its WAITING_FOR_ACTION jobs, even on a complete cleanup.
   */
  lemma CleanUpKeepsOnlyWaitingForAction(m: JobMap, effects: seq<Effect>, full: bool)
    requires Sound(m)
    requires forall k :: k in m.entries ==> IsLatin1(m.entries[k].account.email)
    ensures var r := CleanAll(Cleaning(Book(m, effects), false), m.Values(), full);
            !r.aborted
            && forall k :: (k in r.book.jobs.entries <==> k in m.entries && m.entries[k].status == WaitingForAction)
                           && (k in r.book.jobs.entries ==> r.book.jobs.entries[k] == m.entries[k])
  {
    var c := Cleaning(Book(m, effects), false);
    var vs := m.Values();
    forall i | 0 <= i < |vs|
      ensures m.keys[i] in m.entries && vs[i] == m.entries[m.keys[i]] && IsLatin1(vs[i].account.email)
    {
      var k := m.keys[i];
      assert k in m.entries && IsLatin1(m.entries[k].account.email);
    }
    CleanAllCompletes(c, vs, full);
    CleanAllEntries(c, vs, full);
    forall k
      ensures Evicted(vs, k) <==> k in m.entries && m.entries[k].status != WaitingForAction
    {
      if k in m.entries && m.entries[k].status != WaitingForAction {
        var i :| 0 <= i < |m.keys| && m.keys[i] == k;
        assert vs[i].account.id == k;
      }
    }
  }

  /** The first job of `keys` among those with the lowest order that are WAITING (the stable sort in the dispatch tick). */
  function LowestWaitingIn(keys: seq<int>, entries: map<int, Job>): (r: Option<int>)
    requires forall i :: 0 <= i < |keys| ==> keys[i] in entries
    ensures r.None? <==> forall i :: 0 <= i < |keys| ==> entries[keys[i]].status != Waiting
    ensures r.Some? ==> r.value in keys && r.value in entries && entries[r.value].status == Waiting
    ensures r.Some? ==> forall i :: 0 <= i < |keys| && entries[keys[i]].status == Waiting ==>
                          entries[r.value].order <= entries[keys[i]].order
    decreases |keys|
  {
    if |keys| == 0 then None
    else
      var rest := LowestWaitingIn(keys[1..], entries);
      assert forall i :: 1 <= i < |keys| ==> keys[i] == keys[1..][i - 1];
      var here := entries[keys[0]];
      if here.status == Waiting && (rest.None? || here.order <= entries[rest.value].order) then Some(keys[0])
      else rest
  }

  function LowestWaiting(m: JobMap): (r: Option<int>)
    requires m.WellFormed()
    ensures r.None? <==> forall k :: k in m.entries ==> m.entries[k].status != Waiting
    ensures r.Some? ==> r.value in m.entries && m.entries[r.value].status == Waiting
    ensures r.Some? ==> forall k :: k in m.entries && m.entries[k].status == Waiting ==>
                          m.entries[r.value].order <= m.entries[k].order
  {
    LowestWaitingIn(m.keys, m.entries)
  }

  /** In a sound map the lowest-order WAITING job is the only one with that order. */
  lemma LowestWaitingUnique(m: JobMap, k: int)
    requires Sound(m) && LowestWaiting(m).Some?
    requires k in m.entries && m.entries[k].status == Waiting && k != LowestWaiting(m).value
    ensures m.entries[LowestWaiting(m).value].order < m.entries[k].order
  {
  }

  /** A job moved to a status other than RUNNING, order and session kept. */
  function Mark(m: JobMap, id: int, s: Status): (r: JobMap)
    requires m.WellFormed()
    ensures r.WellFormed() && r.keys == m.keys
    ensures id !in m.entries ==> r == m
    ensures id in m.entries ==> r.entries == m.entries[id := m.entries[id].(status := s)]
  {
    if id in m.entries then m.Put(id, m.entries[id].(status := s)) else m
  }

  /** Changing a job's status keeps the map sound, unless it would make a third job run. */
  lemma MarkSound(m: JobMap, id: int, s: Status)
    requires Sound(m)
    requires s == Running ==> |RunningIds(m)| < 2 || (id in m.entries && m.entries[id].status == Running)
    ensures Sound(Mark(m, id, s))
  {
    var r := Mark(m, id, s);
    if s == Running {
      assert RunningIds(r) <= RunningIds(m) + {id};
      SubsetCard(RunningIds(r), RunningIds(m) + {id});
      if id in m.entries && m.entries[id].status == Running {
        assert RunningIds(r) <= RunningIds(m);
        SubsetCard(RunningIds(r), RunningIds(m));
      }
    } else {
      assert RunningIds(r) <= RunningIds(m);
      SubsetCard(RunningIds(r), RunningIds(m));
    }
  }

  /** The list the flush tick builds: (id, status) of every job, in map order. */
  function StatusList(m: JobMap): (r: seq<StatusEntry>)
    requires m.WellFormed()
    ensures |r| == |m.keys|
  {
    var vs := m.Values();
    seq(|vs|, i requires 0 <= i < |vs| => StatusEntry(vs[i].account.id, vs[i].status))
  }

  /** In a sound map the flushed list names each key once, in insertion order, with its job's status. */
  lemma StatusListOfSound(m: JobMap)
    requires Sound(m)
    ensures forall i :: 0 <= i < |m.keys| ==>
              StatusList(m)[i] == StatusEntry(m.keys[i], m.entries[m.keys[i]].status)
  {
  }

  /** The list as the patches of `updateAccountsInBulk`. */
  function StatusPatches(list: seq<StatusEntry>): (r: seq<AccountPatch>)
    ensures |r| == |list|
    ensures forall i :: 0 <= i < |list| ==> r[i] == StatusPatch(list[i].id, list[i].status)
  {
    seq(|list|, i requires 0 <= i < |list| => StatusPatch(list[i].id, list[i].status))
  }

  class TaskManager {
    var accountMap: JobMap
    /** Whether the `setInterval` timers exist (`checkInterval`, `statusUpdateInterval` not null). */
    var checkInterval: bool
    var statusUpdateInterval: bool
    var isEnabled: bool
    /** The module-level `oldUpdate`: the list last written by a flush. */
    var lastFlushed: seq<StatusEntry>
    var effects: seq<Effect>

    ghost predicate Valid()
      reads this
    {
      Sound(accountMap) && checkInterval == isEnabled && statusUpdateInterval == isEnabled
    }

    constructor ()
      ensures Valid()
      ensures accountMap == EmptyMap && !isEnabled && lastFlushed == [] && effects == []
    {
      accountMap := EmptyMap;
      checkInterval := false;
      statusUpdateInterval := false;
      isEnabled := false;
      lastFlushed := [];
      effects := [];
    }

    /**
     * `run(ids)` given the accounts the Account table returned for the ids:
     * SUCCESS jobs are dropped, the accounts are written back as WAITING, each is
     * queued behind every job in the map, and the manager is enabled.
     */
    method Run(accounts: seq<Account>)
      requires Valid()
      modifies this
      ensures Valid()
      ensures var cleaned := RemoveAll(old(accountMap), SuccessIds(old(accountMap)));
              Book(accountMap, effects) == EnqueueAll(Book(cleaned, old(effects) + [BulkUpdate(WaitingPatches(accounts))]), accounts)
      ensures isEnabled && lastFlushed == old(lastFlushed)
    {
      CleanUpSuccessAccounts();
      effects := effects + [BulkUpdate(WaitingPatches(accounts))];
      ghost var start := Book(accountMap, effects);
      for i := 0 to |accounts|
        invariant Book(accountMap, effects) == EnqueueAll(start, accounts[..i])
        invariant Valid() && isEnabled == old(isEnabled) && lastFlushed == old(lastFlushed)
      {
        assert accounts[..i + 1][..i] == accounts[..i];
        EnqueueAccount(accounts[i]);
      }
      assert accounts[..|accounts|] == accounts;
      Enable();
    }

    /** The body of the loop in `run`: close the browser of a job already filed, then queue the account last. */
    method EnqueueAccount(a: Account)
      requires Valid()
      modifies this
      ensures Valid()
      ensures Book(accountMap, effects) == Enqueue(old(Book(accountMap, effects)), a)
      ensures isEnabled == old(isEnabled) && lastFlushed == old(lastFlushed)
      ensures checkInterval == old(checkInterval) && statusUpdateInterval == old(statusUpdateInterval)
    {
      ghost var after := Enqueue(Book(accountMap, effects), a);
      EnqueueSound(Book(accountMap, effects), a);
      var prior := if a.id in accountMap.entries then accountMap.entries[a.id].session else None;
      if prior.Some? {
        effects := effects + [CloseBrowser(prior.value)];
      }
      accountMap := accountMap.Put(a.id, Job(a, Waiting, MaxOrder(accountMap) + 1, None));
      assert accountMap == after.jobs && effects == after.effects;
    }

    /** `enable()`: nothing happens when already enabled; each timer is created only if missing. */
    method Enable()
      requires Valid()
      modifies this
      ensures Valid() && isEnabled
      ensures old(isEnabled) ==> checkInterval == old(checkInterval) && statusUpdateInterval == old(statusUpdateInterval)
      ensures accountMap == old(accountMap) && effects == old(effects) && lastFlushed == old(lastFlushed)
    {
      if isEnabled {
        return;
      }
      isEnabled := true;
      if !checkInterval {
        checkInterval := true;
      }
      if !statusUpdateInterval {
        statusUpdateInterval := true;
      }
    }

    /** `disable(full)`: the timers stop and the map is cleaned up. */
    method Disable(full: bool)
      requires Valid()
      modifies this
      ensures Valid() && !isEnabled
      ensures var r := CleanAll(Cleaning(Book(old(accountMap), old(effects)), false), old(accountMap).Values(), full);
              accountMap == r.book.jobs && effects == r.book.effects
      ensures lastFlushed == old(lastFlushed)
    {
      isEnabled := false;
      checkInterval := false;
      statusUpdateInterval := false;
      CleanUp(full);
    }

    /** `cleanUpSuccessAccounts()`: the ids of the SUCCESS jobs are collected, then deleted one by one. */
    method CleanUpSuccessAccounts()
      requires Valid()
      modifies this`accountMap
      ensures Valid()
      ensures accountMap == RemoveAll(old(accountMap), SuccessIds(old(accountMap)))
    {
      var ids := SuccessIds(accountMap);
      for i := 0 to |ids|
        invariant accountMap == RemoveAll(old(accountMap), ids[..i])
      {
        assert ids[..i + 1][..i] == ids[..i];
        accountMap := accountMap.Remove(ids[i]);
      }
      assert ids[..|ids|] == ids;
      RemoveAllSound(old(accountMap), ids);
    }

    /** `cleanUp(full)`: the loop over a snapshot of the jobs; a `btoa` failure ends it. */
    method CleanUp(full: bool)
      requires Valid()
      modifies this`accountMap, this`effects
      ensures Valid()
      ensures var r := CleanAll(Cleaning(Book(old(accountMap), old(effects)), false), old(accountMap).Values(), full);
              accountMap == r.book.jobs && effects == r.book.effects
    {
      ghost var c0 := Cleaning(Book(accountMap, effects), false);
      var snapshot := accountMap.Values();
      CleanSnapshot(snapshot, full);
      CleanAllSound(c0, snapshot, full);
    }

    /** The loop of `cleanUp` over the snapshot, job by job until one email makes `btoa` throw. */
    method CleanSnapshot(snapshot: seq<Job>, full: bool)
      requires accountMap.WellFormed()
      modifies this`accountMap, this`effects
      ensures Book(accountMap, effects) == CleanAll(Cleaning(old(Book(accountMap, effects)), false), snapshot, full).book
    {
      ghost var c0 := Cleaning(Book(accountMap, effects), false);
      var aborted := false;
      var i := 0;
      while i < |snapshot| && !aborted
        invariant 0 <= i <= |snapshot|
        invariant accountMap.WellFormed()
        invariant CleanAll(c0, snapshot[..i], full) == Cleaning(Book(accountMap, effects), aborted)
        decreases |snapshot| - i
      {
        CleanAllStep(c0, snapshot, i, full);
        aborted := CleanJob(snapshot[i], full);
        i := i + 1;
      }
      CleanAllStopped(c0, snapshot, i, full);
    }

    /** The body of the `cleanUp` loop for one job of the snapshot; true when `btoa` threw. */
    method CleanJob(job: Job, full: bool) returns (aborted: bool)
      requires accountMap.WellFormed()
      modifies this`accountMap, this`effects
      ensures Cleaning(Book(accountMap, effects), aborted) == CleanOne(Cleaning(old(Book(accountMap, effects)), false), job, full)
    {
      var id := job.account.id;
      var name := WindowName(job.account.email);
      aborted := false;
      if job.status == Running {
        if job.session.Some? {
          effects := effects + [CloseBrowser(job.session.value), KillProcess(job.session.value, SIGKILL),
                                KillProcess(job.session.value, SIGTERM)];
        }
        if name.None? {
          return true;
        }
        effects := effects + [KillByWindowName(name.value)];
        accountMap := accountMap.Remove(id);
        effects := effects + [UpdateAccount(id, SetError(ClearedLog))];
      } else if job.status != WaitingForAction {
        accountMap := accountMap.Remove(id);
      }
      if full {
        if name.None? {
          return true;
        }
        effects := effects + [KillByWindowName(name.value)];
        if job.session.Some? {
          effects := effects + [CloseBrowser(job.session.value), KillProcess(job.session.value, SIGTERM)];
        }
      }
    }

    /**
     * The dispatch tick (`checkAndRunNextTask` with the first, synchronous part
     * of `executeTask`): nothing happens when the manager is disabled, the run
     * flag is off, two jobs already run or none waits; otherwise the
     * lowest-order WAITING job becomes RUNNING and its login starts.
     */
    method DispatchTick(runFlag: bool) returns (started: Option<int>)
      requires Valid()
      modifies this
      ensures Valid()
      ensures !isEnabled || !runFlag || |RunningIds(old(accountMap))| >= 2 || LowestWaiting(old(accountMap)).None? ==>
                started.None? && accountMap == old(accountMap) && effects == old(effects)
      ensures isEnabled && runFlag && |RunningIds(old(accountMap))| < 2 && LowestWaiting(old(accountMap)).Some? ==>
                started == LowestWaiting(old(accountMap))
                && accountMap == Mark(old(accountMap), started.value, Running)
                && effects == old(effects) + [StartLogin(old(accountMap).entries[started.value].account)]
      ensures isEnabled == old(isEnabled) && lastFlushed == old(lastFlushed)
    {
      if !isEnabled || !runFlag {
        return None;
      }
      var running := RunningIds(accountMap);
      if |running| >= 2 {
        return None;
      }
      started := LowestWaiting(accountMap);
      if started.None? {
        return;
      }
      var job := accountMap.entries[started.value];
      MarkSound(accountMap, started.value, Running);
      accountMap := Mark(accountMap, started.value, Running);
      effects := effects + [StartLogin(job.account)];
    }

    /** The launch returned its session: a job still in the map keeps it. */
    method LaunchSucceeded(id: int, session: SessionId)
      requires Valid()
      modifies this
      ensures Valid()
      ensures id in old(accountMap).entries ==>
                accountMap == old(accountMap).Put(id, old(accountMap).entries[id].(session := Some(session)))
      ensures id !in old(accountMap).entries ==> accountMap == old(accountMap)
      ensures effects == old(effects) && isEnabled == old(isEnabled) && lastFlushed == old(lastFlushed)
    {
      if id in accountMap.entries {
        var m := accountMap.Put(id, accountMap.entries[id].(session := Some(session)));
        assert RunningIds(m) == RunningIds(accountMap);
        accountMap := m;
      }
    }

    /** `onWaitingForActions`: a job still in the map waits for the user. */
    method OnWaitingForActions(id: int)
      requires Valid()
      modifies this
      ensures Valid()
      ensures accountMap == Mark(old(accountMap), id, WaitingForAction)
      ensures effects == old(effects) + (if id in old(accountMap).entries then [UpdateAccount(id, SetStatus(WaitingForAction))] else [])
      ensures isEnabled == old(isEnabled) && lastFlushed == old(lastFlushed)
    {
      if id in accountMap.entries {
        MarkSound(accountMap, id, WaitingForAction);
        accountMap := Mark(accountMap, id, WaitingForAction);
        effects := effects + [UpdateAccount(id, SetStatus(WaitingForAction))];
      }
    }

    /** `onSuccess`: a job still in the map succeeded at `now`. */
    method OnSuccess(id: int, now: int)
      requires Valid()
      modifies this
      ensures Valid()
      ensures accountMap == Mark(old(accountMap), id, Success)
      ensures effects == old(effects) + (if id in old(accountMap).entries then [UpdateAccount(id, SetSuccess(now))] else [])
      ensures isEnabled == old(isEnabled) && lastFlushed == old(lastFlushed)
    {
      if id in accountMap.entries {
        MarkSound(accountMap, id, Success);
        accountMap := Mark(accountMap, id, Success);
        effects := effects + [UpdateAccount(id, SetSuccess(now))];
      }
    }

    /**
     * `onError`, and equally the `catch` of `executeTask` when the launch throws
     * (the browser it would close is the no-op it starts with): a job still in
     * the map fails with the message as its log.
     */
    method OnError(id: int, message: string)
      requires Valid()
      modifies this
      ensures Valid()
      ensures accountMap == Mark(old(accountMap), id, Error)
      ensures effects == old(effects) + (if id in old(accountMap).entries then [UpdateAccount(id, SetError(message))] else [])
      ensures isEnabled == old(isEnabled) && lastFlushed == old(lastFlushed)
    {
      if id in accountMap.entries {
        MarkSound(accountMap, id, Error);
        accountMap := Mark(accountMap, id, Error);
        effects := effects + [UpdateAccount(id, SetError(message))];
      }
    }

    /**
     * The flush tick (`updateAccountStatuses`): skipped when disabled or empty;
     * otherwise the (id, status) list is built in map order and written only when
     * it differs from the last list written.
     */
    method FlushStatuses() returns (written: bool)
      requires Valid()
      modifies this
      ensures Valid() && accountMap == old(accountMap)
      ensures !isEnabled || |accountMap.keys| == 0 ==> !written
      ensures written <==> isEnabled && |accountMap.keys| > 0 && StatusList(accountMap) != old(lastFlushed)
      ensures written ==> lastFlushed == StatusList(accountMap)
                          && effects == old(effects) + [BulkUpdate(StatusPatches(StatusList(accountMap)))]
      ensures !written ==> lastFlushed == old(lastFlushed) && effects == old(effects)
      ensures isEnabled == old(isEnabled)
    {
      if !isEnabled || |accountMap.keys| == 0 {
        return false;
      }
      var list: seq<StatusEntry> := [];
      for i := 0 to |accountMap.keys|
        invariant list == StatusList(accountMap)[..i]
      {
        var job := accountMap.entries[accountMap.keys[i]];
        list := list + [StatusEntry(job.account.id, job.status)];
      }
      assert list == StatusList(accountMap);
      if list == lastFlushed {
        return false;
      }
      lastFlushed := list;
      effects := effects + [BulkUpdate(StatusPatches(list))];
      return true;
    }

    /** `bringBrowserToFrontByAccountId(id)`: only a job with a session can be focused. */
    method BringBrowserToFront(id: int)
      requires Valid()
      modifies this
      ensures Valid() && accountMap == old(accountMap)
      ensures id in accountMap.entries && accountMap.entries[id].session.Some? ==>
                effects == old(effects) + [BringToFront(accountMap.entries[id].session.value, accountMap.entries[id].account.email)]
      ensures id !in accountMap.entries || accountMap.entries[id].session.None? ==> effects == old(effects)
      ensures isEnabled == old(isEnabled) && lastFlushed == old(lastFlushed)
    {
      if id in accountMap.entries && accountMap.entries[id].session.Some? {
        var job := accountMap.entries[id];
        effects := effects + [BringToFront(job.session.value, job.account.email)];
      }
    }
  }
}
