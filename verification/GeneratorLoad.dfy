/**
 How the task generator keeps the qualification load level: the per-pool deficits
 it polls, and what syncing the work queue to them achieves.
 */
module GeneratorLoad {
  import opened Common
  import A = Arena
  import opened WorkQueue
  import R = WorkQueueRuns

  /** One row of the grouped count query; an unknown pool number is `None`. */
  datatype CountRow = CountRow(pool: Option<Pool>, status: A.TaskStatus, count: nat)

  datatype Result = Deficits(list: seq<Deficit>) | BadTarget

  predicate IsActive(status: A.TaskStatus) {
    status == A.Candidate || status == A.PendingScreen
  }

  /** The rows' total for a pool: its qualified tasks, or its candidate and pending ones. */
  function Total(rows: seq<CountRow>, pool: Pool, active: bool): nat {
    if rows == [] then 0
    else
      var last := rows[|rows| - 1];
      Total(rows[..|rows| - 1], pool, active)
      + if last.pool == Some(pool) && (if active then IsActive(last.status) else last.status == A.Qualified)
        then last.count else 0
  }

  function Incomplete(rows: seq<CountRow>, targets: A.Targets): seq<Pool> {
    (if Total(rows, PoolOne, false) < targets.one then [PoolOne] else [])
    + (if Total(rows, PoolTwo, false) < targets.two then [PoolTwo] else [])
  }

  /** The i-th of n nearly equal parts of the in-flight target, larger parts first. */
  function Share(target: nat, n: nat, i: nat): nat
    requires n > 0
  {
    target / n + if i < target % n then 1 else 0
  }

  function DeficitsFrom(king: Id, rows: seq<CountRow>, incomplete: seq<Pool>, target: nat, i: nat): seq<Deficit>
    requires i <= |incomplete|
    decreases |incomplete| - i
  {
    if i == |incomplete| then []
    else
      var count := Share(target, |incomplete|, i) - Total(rows, incomplete[i], true);
      (if count > 0 then [Deficit(king, incomplete[i], count)] else [])
      + DeficitsFrom(king, rows, incomplete, target, i + 1)
  }

  function PoolDeficits(king: Id, rows: seq<CountRow>, targets: A.Targets, target: nat): seq<Deficit> {
    DeficitsFrom(king, rows, Incomplete(rows, targets), target, 0)
  }

  /** Adding one row to a per-pool total. */
  lemma TotalOfOneMore(rows: seq<CountRow>, i: nat, pool: Pool, active: bool)
    requires i < |rows|
    ensures Total(rows[..i + 1], pool, active)
         == Total(rows[..i], pool, active)
          + if rows[i].pool == Some(pool) && (if active then IsActive(rows[i].status) else rows[i].status == A.Qualified)
            then rows[i].count else 0
  {
    assert rows[..i + 1][..i] == rows[..i];
  }

  /** The loop over the count rows. */
  method CountTasks(rows: seq<CountRow>) returns (qualified: map<Pool, nat>, active: map<Pool, nat>)
    ensures forall pool :: pool in qualified && qualified[pool] == Total(rows, pool, false)
    ensures forall pool :: pool in active && active[pool] == Total(rows, pool, true)
  {
    qualified := map[PoolOne := 0, PoolTwo := 0];
    active := map[PoolOne := 0, PoolTwo := 0];
    forall pool: Pool ensures pool in qualified && qualified[pool] == 0 && pool in active && active[pool] == 0 {
      assert pool == PoolOne || pool == PoolTwo;
    }
    for i := 0 to |rows|
      invariant forall pool :: pool in qualified && qualified[pool] == Total(rows[..i], pool, false)
      invariant forall pool :: pool in active && active[pool] == Total(rows[..i], pool, true)
    {
      var row := rows[i];
      forall pool, kind
        ensures Total(rows[..i + 1], pool, kind)
             == Total(rows[..i], pool, kind)
              + if row.pool == Some(pool) && (if kind then IsActive(row.status) else row.status == A.Qualified)
                then row.count else 0
      {
        TotalOfOneMore(rows, i, pool, kind);
      }
      if row.pool.Some? {
        var pool := row.pool.value;
        if row.status == A.Qualified {
          qualified := qualified[pool := qualified[pool] + row.count];
        } else if row.status == A.Candidate || row.status == A.PendingScreen {
          active := active[pool := active[pool] + row.count];
        }
      }
    }
    assert rows[..|rows|] == rows;
  }

  /** The loop over the incomplete pools. */
  method ListDeficits(king: Id, rows: seq<CountRow>, incomplete: seq<Pool>, active: map<Pool, nat>, target: nat)
    returns (list: seq<Deficit>)
    requires forall pool :: pool in active && active[pool] == Total(rows, pool, true)
    ensures list == DeficitsFrom(king, rows, incomplete, target, 0)
  {
    list := [];
    var index := 0;
    ghost var all := DeficitsFrom(king, rows, incomplete, target, 0);
    while index < |incomplete|
      invariant 0 <= index <= |incomplete|
      invariant all == list + DeficitsFrom(king, rows, incomplete, target, index)
    {
      var pool := incomplete[index];
      var share, remainder := target / |incomplete|, target % |incomplete|;
      var deficit := share + (if index < remainder then 1 else 0) - active[pool];
      ghost var entry, rest := if deficit > 0 then [Deficit(king, pool, deficit)] else [],
                               DeficitsFrom(king, rows, incomplete, target, index + 1);
      assert DeficitsFrom(king, rows, incomplete, target, index) == entry + rest;
      assert list + (entry + rest) == list + entry + rest;
      if deficit > 0 {
        list := list + [Deficit(king, pool, deficit)];
      }
      index := index + 1;
    }
  }

  method PendingPoolDeficits(king: Option<Id>, rows: seq<CountRow>, targets: A.Targets, target: int) returns (r: Result)
    ensures target < 1 <==> r.BadTarget?
    ensures target >= 1 && king.None? ==> r == Deficits([])
    ensures target >= 1 && king.Some? ==> r == Deficits(PoolDeficits(king.value, rows, targets, target))
  {
    if target < 1 {
      return BadTarget;
    }
    if king.None? {
      return Deficits([]);
    }
    var qualified, active := CountTasks(rows);
    var incomplete := (if qualified[PoolOne] < targets.one then [PoolOne] else [])
                    + (if qualified[PoolTwo] < targets.two then [PoolTwo] else []);
    var list := ListDeficits(king.value, rows, incomplete, active, target);
    return Deficits(list);
  }

  // ---------------------------------------------------------------- shares

  function SumShares(target: nat, n: nat, m: nat): nat
    requires n > 0
  {
    if m == 0 then 0 else SumShares(target, n, m - 1) + Share(target, n, m - 1)
  }

  lemma {:induction false} SumOfFirstShares(target: nat, n: nat, m: nat)
    requires n > 0 && m <= n
    ensures SumShares(target, n, m) == m * (target / n) + if m < target % n then m else target % n
  {
    if m > 0 {
      SumOfFirstShares(target, n, m - 1);
      assert m * (target / n) == (m - 1) * (target / n) + target / n;
    }
  }

  /** The shares add up to the in-flight target and differ by at most one. */
  lemma SharesAreLevel(target: nat, n: nat)
    requires n > 0
    ensures SumShares(target, n, n) == target
    ensures forall i: nat, j: nat | i < n && j < n :: Share(target, n, i) <= Share(target, n, j) + 1
  {
    SumOfFirstShares(target, n, n);
    assert target == n * (target / n) + target % n;
  }

  // ---------------------------------------------------------------- load after a poll

  /** A pool's share of the in-flight target: its part if it is incomplete, else nothing. */
  function ShareOf(rows: seq<CountRow>, targets: A.Targets, target: nat, pool: Pool): nat {
    var incomplete := Incomplete(rows, targets);
    if pool in incomplete then Share(target, |incomplete|, if incomplete[0] == pool then 0 else 1) else 0
  }

  function Shortfall(share: int, active: int): int {
    if share > active then share - active else 0
  }

  lemma NeededLast(king: Id, a: seq<Deficit>, d: Deficit, pool: Pool)
    ensures Needed(a + [d], king, pool) == if d.king == king && d.pool == pool then d.count else Needed(a, king, pool)
  {
    assert (a + [d])[..|a|] == a;
  }

  lemma NeededOfTwo(king: Id, a: seq<Deficit>, b: seq<Deficit>, pool: Pool)
    requires |a| <= 1 && |b| <= 1 && (forall d | d in a :: d.king == king) && (forall d | d in b :: d.king == king)
    ensures Needed(a + b, king, pool)
         == if b != [] && b[0].pool == pool then b[0].count
            else if a != [] && a[0].pool == pool then a[0].count else 0
  {
    if a != [] {
      assert a == [] + [a[0]];
      NeededLast(king, [], a[0], pool);
    }
    if b != [] {
      assert b[0] in b && b == [b[0]];
      NeededLast(king, a, b[0], pool);
    } else {
      assert a + b == a;
    }
  }

  function Entry(king: Id, rows: seq<CountRow>, incomplete: seq<Pool>, target: nat, i: nat): seq<Deficit>
    requires i < |incomplete|
  {
    var count := Share(target, |incomplete|, i) - Total(rows, incomplete[i], true);
    if count > 0 then [Deficit(king, incomplete[i], count)] else []
  }

  lemma AtMostTwoEntries(king: Id, rows: seq<CountRow>, incomplete: seq<Pool>, target: nat)
    requires |incomplete| <= 2
    ensures DeficitsFrom(king, rows, incomplete, target, 0)
         == (if |incomplete| >= 1 then Entry(king, rows, incomplete, target, 0) else [])
          + (if |incomplete| == 2 then Entry(king, rows, incomplete, target, 1) else [])
  {
    assert DeficitsFrom(king, rows, incomplete, target, |incomplete|) == [];
    if |incomplete| == 2 {
      assert DeficitsFrom(king, rows, incomplete, target, 1) == Entry(king, rows, incomplete, target, 1) + [];
    }
  }

  /** The poll asks, pool by pool, for what the active tasks fall short of the pool's share. */
  lemma NeededIsShortfall(king: Id, rows: seq<CountRow>, targets: A.Targets, target: nat, pool: Pool)
    ensures Needed(PoolDeficits(king, rows, targets, target), king, pool)
         == if pool in Incomplete(rows, targets)
            then Shortfall(ShareOf(rows, targets, target, pool), Total(rows, pool, true)) else 0
    ensures forall d | d in PoolDeficits(king, rows, targets, target) :: d.king == king
  {
    var incomplete := Incomplete(rows, targets);
    AtMostTwoEntries(king, rows, incomplete, target);
    var a := if |incomplete| >= 1 then Entry(king, rows, incomplete, target, 0) else [];
    var b := if |incomplete| == 2 then Entry(king, rows, incomplete, target, 1) else [];
    NeededOfTwo(king, a, b, pool);
    assert PoolDeficits(king, rows, targets, target) == a + b;
  }

  /** After an atomic poll and sync that finds some deficit, the active tasks of each incomplete
      pool together with its slots less cancellations are exactly the larger of its share and what
      was active already; a complete pool has as many cancellations as slots. */
  lemma LoadIsLevelAfterSync(q: Queue, king: Id, rows: seq<CountRow>, targets: A.Targets, target: nat, pool: Pool)
    requires forall r :: Cancels(q, r) >= 0
    requires PoolDeficits(king, rows, targets, target) != []
    ensures var q' := Sync(q, PoolDeficits(king, rows, targets, target));
      var wanted := Slots(q', Request(king, pool)) - Cancels(q', Request(king, pool));
      var active, share := Total(rows, pool, true), ShareOf(rows, targets, target, pool);
      if pool in Incomplete(rows, targets) then active + wanted == if share > active then share else active
      else wanted == 0
  {
    var deficits := PoolDeficits(king, rows, targets, target);
    NeededIsShortfall(king, rows, targets, target, pool);
    assert deficits[0] in deficits;
    R.SyncBalances(q, deficits);
  }

  /** The same in units that exist, at every poll of every run: active tasks and wanted units together
      are the larger of share and active, less every unit of the pair ever lost. */
  lemma LoadFallsShortByLosses(
    run: seq<R.Pipeline>, events: seq<R.Event>, i: nat,
    king: Id, rows: seq<CountRow>, targets: A.Targets, target: nat, pool: Pool)
    requires R.IsRun(run, events) && i < |events|
    requires PoolDeficits(king, rows, targets, target) != []
    requires events[i] == R.Poll(PoolDeficits(king, rows, targets, target))
    ensures var p := run[i + 1];
      var wanted := R.AllUnits(p, Request(king, pool)) - Cancels(p.q, Request(king, pool));
      var active, share := Total(rows, pool, true), ShareOf(rows, targets, target, pool);
      active + wanted
      == (if pool in Incomplete(rows, targets) && share > active then share else active) - R.Lost(p, Request(king, pool))
  {
    R.WorkIsConserved(run, events, i);
    R.WorkIsConserved(run, events, i + 1);
    LoadIsLevelAfterSync(run[i].q, king, rows, targets, target, pool);
    var p := run[i + 1];
    assert p.q == Sync(run[i].q, PoolDeficits(king, rows, targets, target));
    assert Slots(p.q, Request(king, pool)) == R.AllUnits(p, Request(king, pool)) + R.Lost(p, Request(king, pool));
  }

  // ---------------------------------------------------------------- the rows are the tables

  function QualifiedIn(db: A.Tables, king: Id, pool: Pool): set<A.TaskId> {
    set t | t in db.tasks && db.tasks[t].king == king && db.tasks[t].pool == pool && db.tasks[t].status.Qualified?
  }

  /** Mined but not screened to the end. */
  function UnfinishedIn(db: A.Tables, king: Id, pool: Pool): set<A.TaskId> {
    set t | t in db.tasks && db.tasks[t].king == king && db.tasks[t].pool == pool
            && (db.tasks[t].status.Candidate? || db.tasks[t].status.PendingScreen?)
  }

  /** The rows are those of the grouped query: one per group that is not empty, with its size. */
  ghost predicate Groups(db: A.Tables, king: Id, rows: seq<CountRow>) {
    && (forall i | 0 <= i < |rows| ::
          && rows[i].pool.Some? && rows[i].status != A.Disqualified
          && rows[i].count == |A.TasksIn(db.tasks, king, rows[i].pool.value, rows[i].status)|)
    && (forall i, j | 0 <= i < j < |rows| :: !(rows[i].pool == rows[j].pool && rows[i].status == rows[j].status))
    && forall t | t in db.tasks && db.tasks[t].king == king && db.tasks[t].status != A.Disqualified ::
         exists i :: 0 <= i < |rows| && rows[i].pool == Some(db.tasks[t].pool) && rows[i].status == db.tasks[t].status
  }

  /** What the rows say of one group. */
  function GroupCount(rows: seq<CountRow>, pool: Pool, status: A.TaskStatus): nat {
    if rows == [] then 0
    else
      var last := rows[|rows| - 1];
      GroupCount(rows[..|rows| - 1], pool, status) + if last.pool == Some(pool) && last.status == status then last.count else 0
  }

  lemma {:induction false} TotalsAreGroups(rows: seq<CountRow>, pool: Pool)
    ensures Total(rows, pool, true) == GroupCount(rows, pool, A.Candidate) + GroupCount(rows, pool, A.PendingScreen)
    ensures Total(rows, pool, false) == GroupCount(rows, pool, A.Qualified)
  {
    if rows != [] {
      TotalsAreGroups(rows[..|rows| - 1], pool);
    }
  }

  lemma {:induction false} GroupHasOneRow(rows: seq<CountRow>, pool: Pool, status: A.TaskStatus)
    requires forall i, j | 0 <= i < j < |rows| :: !(rows[i].pool == rows[j].pool && rows[i].status == rows[j].status)
    ensures forall i | 0 <= i < |rows| && rows[i].pool == Some(pool) && rows[i].status == status ::
      GroupCount(rows, pool, status) == rows[i].count
    ensures (forall i | 0 <= i < |rows| :: !(rows[i].pool == Some(pool) && rows[i].status == status)) ==>
      GroupCount(rows, pool, status) == 0
  {
    if rows != [] {
      GroupHasOneRow(rows[..|rows| - 1], pool, status);
    }
  }

  lemma GroupCountIsSize(db: A.Tables, king: Id, rows: seq<CountRow>, pool: Pool, status: A.TaskStatus)
    requires Groups(db, king, rows) && status != A.Disqualified
    ensures GroupCount(rows, pool, status) == |A.TasksIn(db.tasks, king, pool, status)|
  {
    GroupHasOneRow(rows, pool, status);
    var tasks := A.TasksIn(db.tasks, king, pool, status);
    if i :| 0 <= i < |rows| && rows[i].pool == Some(pool) && rows[i].status == status {
      assert GroupCount(rows, pool, status) == rows[i].count;
    } else {
      assert forall t :: t !in tasks;
      assert tasks == {};
    }
  }

  lemma UnfinishedAreTwoGroups(db: A.Tables, king: Id, pool: Pool)
    ensures |UnfinishedIn(db, king, pool)|
         == |A.TasksIn(db.tasks, king, pool, A.Candidate)| + |A.TasksIn(db.tasks, king, pool, A.PendingScreen)|
  {
    var candidates := A.TasksIn(db.tasks, king, pool, A.Candidate);
    var pending := A.TasksIn(db.tasks, king, pool, A.PendingScreen);
    assert UnfinishedIn(db, king, pool) == candidates + pending;
    assert candidates !! pending;
  }

  lemma QualifiedAreAGroup(db: A.Tables, king: Id, pool: Pool)
    ensures QualifiedIn(db, king, pool) == A.TasksIn(db.tasks, king, pool, A.Qualified)
  {
  }

  lemma TotalsAreTasks(db: A.Tables, king: Id, rows: seq<CountRow>, pool: Pool)
    requires Groups(db, king, rows)
    ensures Total(rows, pool, false) == |QualifiedIn(db, king, pool)|
    ensures Total(rows, pool, true) == |UnfinishedIn(db, king, pool)|
  {
    TotalsAreGroups(rows, pool);
    GroupCountIsSize(db, king, rows, pool, A.Qualified);
    GroupCountIsSize(db, king, rows, pool, A.Candidate);
    GroupCountIsSize(db, king, rows, pool, A.PendingScreen);
    QualifiedAreAGroup(db, king, pool);
    UnfinishedAreTwoGroups(db, king, pool);
  }

  predicate Short(db: A.Tables, king: Id, targets: A.Targets, pool: Pool) {
    |QualifiedIn(db, king, pool)| < if pool == PoolOne then targets.one else targets.two
  }

  /** A pool's part of the in-flight target: all of it if it alone is short, the larger half for the first
      of two short pools and the smaller for the second. */
  function PartOf(db: A.Tables, king: Id, targets: A.Targets, target: nat, pool: Pool): nat {
    if !Short(db, king, targets, pool) then 0
    else if !Short(db, king, targets, if pool == PoolOne then PoolTwo else PoolOne) then target
    else if pool == PoolOne then (target + 1) / 2
    else target / 2
  }

  lemma PartIsShare(db: A.Tables, king: Id, rows: seq<CountRow>, targets: A.Targets, target: nat, pool: Pool)
    requires Groups(db, king, rows)
    ensures ShareOf(rows, targets, target, pool) == PartOf(db, king, targets, target, pool)
    ensures pool in Incomplete(rows, targets) <==> Short(db, king, targets, pool)
  {
    TotalsAreTasks(db, king, rows, PoolOne);
    TotalsAreTasks(db, king, rows, PoolTwo);
  }

  /** In terms of the tables: after a poll of them and a sync, the unfinished tasks of a short pool and its
      wanted slots together are its part of the in-flight target, or what is unfinished already if
      that is more; and nothing more is wanted for a pool that holds its target. */
  lemma TasksAndSlotsMeetTarget(
    db: A.Tables, q: Queue, king: Id, rows: seq<CountRow>, targets: A.Targets, target: nat, pool: Pool)
    requires Groups(db, king, rows) && forall r :: Cancels(q, r) >= 0
    requires PoolDeficits(king, rows, targets, target) != []
    ensures var q' := Sync(q, PoolDeficits(king, rows, targets, target));
      var wanted := Slots(q', Request(king, pool)) - Cancels(q', Request(king, pool));
      var (unfinished, part) := (|UnfinishedIn(db, king, pool)|, PartOf(db, king, targets, target, pool));
      if Short(db, king, targets, pool) then unfinished + wanted == if part > unfinished then part else unfinished
      else wanted == 0
  {
    LoadIsLevelAfterSync(q, king, rows, targets, target, pool);
    TotalsAreTasks(db, king, rows, pool);
    PartIsShare(db, king, rows, targets, target, pool);
  }

  /** There is nothing to generate exactly when every short pool has its part unfinished already. */
  lemma NothingToGenerateExactly(
    db: A.Tables, king: Id, rows: seq<CountRow>, targets: A.Targets, target: nat)
    requires Groups(db, king, rows)
    ensures PoolDeficits(king, rows, targets, target) == []
      <==> forall pool | Short(db, king, targets, pool) ::
             |UnfinishedIn(db, king, pool)| >= PartOf(db, king, targets, target, pool)
  {
    forall pool: Pool
      ensures pool in Incomplete(rows, targets) <==> Short(db, king, targets, pool)
      ensures ShareOf(rows, targets, target, pool) == PartOf(db, king, targets, target, pool)
      ensures Total(rows, pool, true) == |UnfinishedIn(db, king, pool)|
    {
      PartIsShare(db, king, rows, targets, target, pool);
      TotalsAreTasks(db, king, rows, pool);
    }
    NoDeficitsExactly(king, rows, targets, target);
  }

  lemma NoDeficitsExactly(king: Id, rows: seq<CountRow>, targets: A.Targets, target: nat)
    ensures PoolDeficits(king, rows, targets, target) == []
      <==> forall pool | pool in Incomplete(rows, targets) :: Total(rows, pool, true) >= ShareOf(rows, targets, target, pool)
  {
    var incomplete := Incomplete(rows, targets);
    assert DeficitsFrom(king, rows, incomplete, target, |incomplete|) == [];
    if |incomplete| == 2 {
      assert incomplete[0] == PoolOne && incomplete[1] == PoolTwo;
      assert PoolOne in incomplete && PoolTwo in incomplete;
      assert DeficitsFrom(king, rows, incomplete, target, 1) == []
        <==> Total(rows, PoolTwo, true) >= ShareOf(rows, targets, target, PoolTwo);
    } else if |incomplete| == 1 {
      assert incomplete[0] in incomplete;
    }
  }

  // ---------------------------------------------------------------- an insert followed by done

  function ActiveTasks(db: A.Tables, king: Id, pool: Pool): nat {
    |A.TasksIn(db.tasks, king, pool, A.Candidate)| + |A.TasksIn(db.tasks, king, pool, A.PendingScreen)|
  }

  lemma NewTaskIsAdded(
    tasks: map<A.TaskId, A.Task>, t: A.TaskId, task: A.Task, k: Id, p: Pool, status: A.TaskStatus)
    requires t !in tasks
    ensures A.TasksIn(tasks[t := task], k, p, status)
         == if task.king == k && task.pool == p && task.status == status
            then A.TasksIn(tasks, k, p, status) + {t} else A.TasksIn(tasks, k, p, status)
  {
  }

  lemma NewTaskIsCounted(
    tasks: map<A.TaskId, A.Task>, t: A.TaskId, task: A.Task, k: Id, p: Pool, status: A.TaskStatus)
    requires t !in tasks
    ensures |A.TasksIn(tasks[t := task], k, p, status)|
         == |A.TasksIn(tasks, k, p, status)| + if task.king == k && task.pool == p && task.status == status then 1 else 0
  {
    NewTaskIsAdded(tasks, t, task, k, p, status);
    var before := A.TasksIn(tasks, k, p, status);
    assert t !in before;
    assert |before + {t}| == |before| + 1;
  }

  /** Inserting the task of a unit and then finishing the unit moves it from in-flight to active:
      the sum of the two, for every king and pool, does not change. */
  lemma InsertThenDoneKeepsLoad(db: A.Tables, q: Queue, t: A.TaskId, r: Request, fingerprint: string, s: Request)
    requires t !in db.tasks && (forall u | u in db.tasks :: db.tasks[u].fingerprint != fingerprint)
    requires Slots(q, r) >= 1
    ensures var db' := A.InsertTask(db, t, r.king, r.pool, fingerprint);
      ActiveTasks(db', s.king, s.pool) + Slots(Finish(q, r), s) == ActiveTasks(db, s.king, s.pool) + Slots(q, s)
  {
    var task := A.Task(r.king, r.pool, A.Candidate, fingerprint);
    NewTaskIsCounted(db.tasks, t, task, s.king, s.pool, A.Candidate);
    NewTaskIsCounted(db.tasks, t, task, s.king, s.pool, A.PendingScreen);
    R.FinishFreesOneSlot(q, r);
  }
}
