/** Inventory syncs that run under the lease (surveys/tasks.py): what the lease
    promises about their bodies is what `InventoryRuns` asks of a run that
    nobody interrupts. */
module LeasedSyncs {
  import opened Counting
  import opened InventoryRuns
  import InventorySync
  import SyncLease

  type SurveyId = InventorySync.SurveyId

  /** A transaction of a task's body: the lease states in which its batch was
      preloaded and in which it was committed. */
  datatype Commit = Commit(tx: Tx, task: nat, read: nat, at: nat)

  function LogOf(work: seq<Commit>): seq<Tx> {
    seq(|work|, (k: nat) requires k < |work| => work[k].tx)
  }

  /** A body works while its task runs. */
  ghost predicate WhileRunning(limit: nat, states: seq<SyncLease.State>, c: Commit) {
    c.read <= c.at < |states| &&
    SyncLease.Running(states[c.read], limit, c.task) && SyncLease.Running(states[c.at], limit, c.task)
  }

  /** The batch saw the table before transaction `p`; those from `p` on came
      after its preload, and its own body made none of them. */
  ghost predicate PreloadedAt(work: seq<Commit>, k: nat, p: nat)
    requires p <= k < |work|
  {
    SeenIn(work[k].tx, TableAfter(LogOf(work)[..p])) &&
    forall l :: p <= l < k ==> work[l].task != work[k].task && work[k].read <= work[l].at
  }

  ghost predicate Preloaded(work: seq<Commit>, k: nat)
    requires k < |work|
  {
    exists p: nat :: p <= k && PreloadedAt(work, k, p)
  }

  /** A body is one sync: one marker, and nothing after its close step. */
  ghost predicate OneSync(c: Commit, d: Commit) {
    c.task == d.task ==> c.tx.Write? && c.tx.marker == d.tx.marker
  }

  /** These transactions were committed, in this order, by leased tasks. */
  ghost predicate Leased(limit: nat, states: seq<SyncLease.State>, work: seq<Commit>) {
    (forall k :: 0 <= k < |work| ==> WhileRunning(limit, states, work[k])) &&
    (forall i, k :: 0 <= i < k < |work| ==> work[i].at <= work[k].at && OneSync(work[i], work[k])) &&
    forall k :: 0 <= k < |work| ==> Preloaded(work, k)
  }

  // ---- A task runs without interruption ----

  lemma {:induction false} TasksStay(lease: nat, limit: nat, states: seq<SyncLease.State>, steps: seq<SyncLease.Step>,
                                     i: nat, j: nat)
    requires SyncLease.Run(lease, limit, states, steps) && i <= j < |states|
    ensures |states[i].tasks| <= |states[j].tasks|
  {
    if i < j {
      TasksStay(lease, limit, states, steps, i, j - 1);
      assert SyncLease.StepAt(lease, limit, states, steps, j - 1);
    }
  }

  lemma {:induction false} RunningBetween(lease: nat, limit: nat, states: seq<SyncLease.State>,
                                          steps: seq<SyncLease.Step>, i: nat, m: nat, j: nat, t: nat)
    requires SyncLease.Run(lease, limit, states, steps) && i <= m <= j < |states|
    requires SyncLease.Running(states[i], limit, t) && SyncLease.Running(states[j], limit, t)
    ensures SyncLease.Running(states[m], limit, t)
    decreases j - m
  {
    if m < j {
      RunningBetween(lease, limit, states, steps, i, m + 1, j, t);
      TasksStay(lease, limit, states, steps, i, m);
      assert SyncLease.StepAt(lease, limit, states, steps, m);
    }
  }

  /** Under a lease that covers the tasks, whoever commits while a task runs is
      that task. */
  lemma CommitsAlone(lease: nat, limit: nat, states: seq<SyncLease.State>, steps: seq<SyncLease.Step>, i: nat, j: nat,
                     t: nat, c: Commit)
    requires SyncLease.Run(lease, limit, states, steps) && limit <= lease && i <= c.at <= j < |states|
    requires SyncLease.Running(states[i], limit, t) && SyncLease.Running(states[j], limit, t)
    requires WhileRunning(limit, states, c)
    ensures c.task == t
  {
    RunningBetween(lease, limit, states, steps, i, c.at, j, t);
    SyncLease.SafeWithinLease(lease, limit, states, steps);
  }

  /** So no transaction comes between a preload and its write. */
  lemma LeasedIsFresh(lease: nat, limit: nat, states: seq<SyncLease.State>, steps: seq<SyncLease.Step>,
                      work: seq<Commit>)
    requires SyncLease.Run(lease, limit, states, steps) && limit <= lease && Leased(limit, states, work)
    ensures Fresh(LogOf(work))
  {
    forall k | 0 <= k < |work| ensures SeenIn(LogOf(work)[k], TableAfter(LogOf(work)[..k])) {
      assert Preloaded(work, k);
      var p: nat :| p <= k && PreloadedAt(work, k, p);
      if p < k {
        assert WhileRunning(limit, states, work[k]) && WhileRunning(limit, states, work[p]);
        CommitsAlone(lease, limit, states, steps, work[k].read, work[k].at, work[k].task, work[p]);
      }
    }
  }

  /** And the transactions of a task stand together. */
  lemma LeasedTogether(lease: nat, limit: nat, states: seq<SyncLease.State>, steps: seq<SyncLease.Step>,
                       work: seq<Commit>, i: nat, k: nat, j: nat)
    requires SyncLease.Run(lease, limit, states, steps) && limit <= lease && Leased(limit, states, work)
    requires i <= k <= j < |work| && work[i].task == work[j].task
    ensures work[k].task == work[j].task
  {
    if i < k < j {
      assert WhileRunning(limit, states, work[i]) && WhileRunning(limit, states, work[k]);
      assert WhileRunning(limit, states, work[j]);
      CommitsAlone(lease, limit, states, steps, work[i].at, work[j].at, work[j].task, work[k]);
    }
  }

  // ---- What such a sync leaves ----

  lemma FreshPrefix(log: seq<Tx>, more: seq<Tx>)
    requires Fresh(log + more)
    ensures Fresh(log)
  {
    forall k | 0 <= k < |log| ensures SeenIn(log[k], TableAfter(log[..k])) {
      assert (log + more)[k] == log[k] && (log + more)[..k] == log[..k];
    }
  }

  lemma FreshRunShows(before: seq<Tx>, writes: seq<Tx>, marker: InventorySync.Instant, after: seq<Tx>, id: SurveyId)
    requires Fresh(before + writes + [Close(marker)] + after)
    requires WholeRun(writes, marker) && Unused(TableAfter(before), marker)
    ensures LiveIn(TableAfter(before + writes + [Close(marker)]), id) <==>
      exists k :: 0 <= k < |writes| && Touches(writes[k], id)
  {
    FreshPrefix(before + writes + [Close(marker)], after);
    FreshPrefix(before + writes, [Close(marker)]);
    FreshIsCommitted(before + writes + [Close(marker)]);
    UninterruptedRunShows(before, writes, marker, id);
  }

  lemma LogOfParts(before: seq<Commit>, run: seq<Commit>, close: Commit, after: seq<Commit>)
    ensures LogOf(before + run + [close] + after) == LogOf(before) + LogOf(run) + [close.tx] + LogOf(after)
    ensures LogOf(before + run + [close]) == LogOf(before) + LogOf(run) + [close.tx]
  {
  }

  /** From its first transaction to its close step a task makes a whole run. */
  lemma LeasedIsWhole(lease: nat, limit: nat, states: seq<SyncLease.State>, steps: seq<SyncLease.Step>,
                      before: seq<Commit>, run: seq<Commit>, close: Commit, after: seq<Commit>)
    requires SyncLease.Run(lease, limit, states, steps) && limit <= lease
    requires Leased(limit, states, before + run + [close] + after) && (run != [] ==> run[0].task == close.task)
    ensures WholeRun(LogOf(run), close.tx.marker) && forall k :: 0 <= k < |run| ==> run[k].task == close.task
  {
    var work, f, n := before + run + [close] + after, |before|, |before + run|;
    assert work[n] == close;
    forall k | 0 <= k < |run|
      ensures run[k].task == close.task && run[k].tx.Write? && run[k].tx.marker == close.tx.marker
    {
      assert work[f] == run[0] && work[f + k] == run[k];
      LeasedTogether(lease, limit, states, steps, work, f, f + k, n);
      assert OneSync(work[f + k], work[n]);
    }
  }

  /** Under a lease that covers the tasks, once a sync has closed, the live
      surveys are exactly those it lists.  `run` begins with the first
      transaction of its task; no row carried its marker before. */
  lemma LeasedSyncShows(lease: nat, limit: nat, states: seq<SyncLease.State>, steps: seq<SyncLease.Step>,
                        before: seq<Commit>, run: seq<Commit>, close: Commit, after: seq<Commit>, id: SurveyId)
    requires SyncLease.Run(lease, limit, states, steps) && limit <= lease
    requires Leased(limit, states, before + run + [close] + after) && close.tx.Close?
    requires run != [] ==> run[0].task == close.task
    requires Unused(TableAfter(LogOf(before)), close.tx.marker)
    ensures forall k :: 0 <= k < |run| ==> run[k].task == close.task
    ensures LiveIn(TableAfter(LogOf(before + run + [close])), id) <==>
      exists k :: 0 <= k < |run| && Touches(run[k].tx, id)
  {
    LeasedIsFresh(lease, limit, states, steps, before + run + [close] + after);
    LeasedIsWhole(lease, limit, states, steps, before, run, close, after);
    LogOfParts(before, run, close, after);
    FreshRunShows(LogOf(before), LogOf(run), close.tx.marker, LogOf(after), id);
    assert forall k :: 0 <= k < |run| ==> LogOf(run)[k] == run[k].tx;
  }
}
