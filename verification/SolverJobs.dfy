/**
 Which jobs the solver's scheduler is offered: the duel and qualification queries,
 and how excluded jobs widen them.  A job is identified by its key.
 */
module SolverJobs {
  import opened Common

  datatype JobKey =
    | DuelKey(task: string, submission: Id, challenger: Id)
    | QualificationKey(task: string, submission: Id)

  /** A qualified task of a challenge that lacks a solve; `kingFirst` is the hashed side order. */
  datatype DuelRow = DuelRow(
    task: string, king: Id, challenger: Id, missingKing: bool, missingChallenger: bool, kingFirst: bool)

  predicate BothMissing(row: DuelRow) {
    row.missingKing && row.missingChallenger
  }

  /** The query's condition. */
  ghost predicate EachLacksSide(rows: seq<DuelRow>) {
    forall i | 0 <= i < |rows| :: rows[i].missingKing || rows[i].missingChallenger
  }

  /** What the query returns: one row per task and challenge, each lacking a side. */
  ghost predicate IsTable(rows: seq<DuelRow>) {
    && EachLacksSide(rows)
    && (forall i | 0 <= i < |rows| :: rows[i].king != rows[i].challenger)
    && forall i, j | 0 <= i < j < |rows| :: rows[i].task != rows[j].task || rows[i].challenger != rows[j].challenger
  }

  function KingJob(row: DuelRow): JobKey {
    DuelKey(row.task, row.king, row.challenger)
  }

  function ChallengerJob(row: DuelRow): JobKey {
    DuelKey(row.task, row.challenger, row.challenger)
  }

  function SideOrder(row: DuelRow): seq<JobKey> {
    if row.kingFirst then [KingJob(row), ChallengerJob(row)] else [ChallengerJob(row), KingJob(row)]
  }

  /** The missing sides of a row in the order they are solved. */
  function Sides(row: DuelRow): seq<JobKey> {
    if BothMissing(row) then SideOrder(row)
    else if row.missingKing then [KingJob(row)]
    else if row.missingChallenger then [ChallengerJob(row)]
    else []
  }

  /** Row by row, the missing sides that fit whole in the room left. */
  function Take(rows: seq<DuelRow>, room: nat): seq<JobKey> {
    if rows == [] || room == 0 then []
    else
      var sides := Sides(rows[0]);
      if |sides| <= room then sides + Take(rows[1..], room - |sides|) else Take(rows[1..], room)
  }

  function AllSides(rows: seq<DuelRow>): seq<JobKey> {
    if rows == [] then [] else Sides(rows[0]) + AllSides(rows[1..])
  }

  function DuelJobs(rows: seq<DuelRow>, limit: int): seq<JobKey> {
    Take(FirstOf(rows, 2 * limit), AtLeastZero(limit))
  }

  /** What a row adds to the jobs gathered so far: its missing sides if they fit. */
  function Taken(jobs: seq<JobKey>, row: DuelRow, limit: nat): (r: seq<JobKey>)
    requires |jobs| <= limit
    ensures |r| <= limit
  {
    if |Sides(row)| <= limit - |jobs| then jobs + Sides(row) else jobs
  }

  /** The body of the loop over the rows. */
  method AppendRow(jobs: seq<JobKey>, row: DuelRow, limit: nat) returns (r: seq<JobKey>)
    requires |jobs| < limit
    ensures r == Taken(jobs, row, limit)
  {
    r := jobs;
    if row.missingKing && row.missingChallenger {
      if |r| + 2 > limit {
        return;
      }
      r := r + SideOrder(row);
    } else if row.missingKing && |r| < limit {
      r := r + [KingJob(row)];
    } else if row.missingChallenger && |r| < limit {
      r := r + [ChallengerJob(row)];
    }
  }

  /** The query fetches twice the limit in rows and loops over them until the limit is reached. */
  method NextDuelJobs(rows: seq<DuelRow>, limit: int) returns (jobs: seq<JobKey>)
    ensures jobs == DuelJobs(rows, limit)
  {
    jobs := [];
    if limit <= 0 {
      return;
    }
    var fetched := FirstOf(rows, 2 * limit);
    ghost var all := Take(fetched, limit);
    for i := 0 to |fetched|
      invariant |jobs| < limit && all == jobs + Take(fetched[i..], limit - |jobs|)
    {
      TakeRow(fetched, limit, i, jobs, all);
      jobs := AppendRow(jobs, fetched[i], limit);
      if |jobs| >= limit {
        return;
      }
    }
    assert fetched[|fetched|..] == [];
  }

  /** One turn of the loop. */
  lemma TakeRow(rows: seq<DuelRow>, limit: nat, i: nat, jobs: seq<JobKey>, all: seq<JobKey>)
    requires i < |rows| && |jobs| <= limit && all == jobs + Take(rows[i..], limit - |jobs|)
    ensures var taken := Taken(jobs, rows[i], limit);
      all == taken + Take(rows[i + 1..], limit - |taken|)
  {
    assert rows[i..][1..] == rows[i + 1..];
    var sides := Sides(rows[i]);
    if |sides| <= limit - |jobs| {
      var rest := Take(rows[i + 1..], limit - |jobs| - |sides|);
      assert jobs + (sides + rest) == jobs + sides + rest;
    }
  }

  // ---------------------------------------------------------------- what one query offers

  lemma {:induction false} TakeFits(rows: seq<DuelRow>, room: nat)
    ensures |Take(rows, room)| <= room
  {
    if rows != [] && room > 0 {
      var sides := Sides(rows[0]);
      TakeFits(rows[1..], if |sides| <= room then room - |sides| else room);
    }
  }

  lemma {:induction false} TakenAreSides(rows: seq<DuelRow>, room: nat)
    ensures forall k | k in Take(rows, room) :: k in AllSides(rows)
  {
    if rows != [] && room > 0 {
      var sides := Sides(rows[0]);
      TakenAreSides(rows[1..], if |sides| <= room then room - |sides| else room);
    }
  }

  lemma {:induction false} SidesComeFromRows(rows: seq<DuelRow>, k: JobKey)
    requires k in AllSides(rows)
    ensures exists i :: 0 <= i < |rows| && k in Sides(rows[i])
  {
    if k !in Sides(rows[0]) {
      SidesComeFromRows(rows[1..], k);
      var i :| 0 <= i < |rows[1..]| && k in Sides(rows[1..][i]);
      assert k in Sides(rows[i + 1]);
    }
  }

  lemma OtherRowsHaveOtherSides(rows: seq<DuelRow>, k: JobKey)
    requires IsTable(rows) && rows != [] && k in Sides(rows[0])
    ensures k !in AllSides(rows[1..])
  {
    if k in AllSides(rows[1..]) {
      SidesComeFromRows(rows[1..], k);
    }
  }

  lemma AppendIsDistinct(a: seq<JobKey>, b: seq<JobKey>)
    requires Distinct(a) && Distinct(b) && forall k | k in a :: k !in b
    ensures Distinct(a + b)
  {
    forall i, j | 0 <= i < j < |a + b| ensures (a + b)[i] != (a + b)[j] {
      assert i < |a| <= j ==> a[i] in a && b[j - |a|] in b;
    }
  }

  lemma {:induction false} TakeIsDistinct(rows: seq<DuelRow>, room: nat)
    requires IsTable(rows)
    ensures Distinct(Take(rows, room))
  {
    if rows != [] && room > 0 {
      var sides := Sides(rows[0]);
      var left := if |sides| <= room then room - |sides| else room;
      var rest := Take(rows[1..], left);
      TakeIsDistinct(rows[1..], left);
      TakenAreSides(rows[1..], left);
      forall k | k in sides ensures k !in rest {
        OtherRowsHaveOtherSides(rows, k);
      }
      AppendIsDistinct(sides, rest);
    }
  }

  lemma RowsShareNoSide(a: DuelRow, b: DuelRow)
    requires a.task != b.task || a.challenger != b.challenger
    ensures forall k | k in Sides(b) :: k !in Sides(a)
  {
  }

  predicate PairAt(jobs: seq<JobKey>, row: DuelRow, i: int) {
    BothMissing(row) && 0 <= i && i + 2 <= |jobs| && jobs[i] == Sides(row)[0] && jobs[i + 1] == Sides(row)[1]
  }

  lemma PairShifts(a: seq<JobKey>, b: seq<JobKey>, row: DuelRow, i: nat)
    requires PairAt(b, row, i)
    ensures PairAt(a + b, row, i + |a|)
  {
  }

  /** A task lacking both sides is offered as an adjacent pair or not at all. */
  lemma {:induction false} PairsStayTogether(rows: seq<DuelRow>, room: nat, r: nat)
    requires IsTable(rows) && r < |rows| && BothMissing(rows[r])
    ensures (forall k | k in Sides(rows[r]) :: k !in Take(rows, room)) || exists i :: PairAt(Take(rows, room), rows[r], i)
  {
    if room > 0 {
      var sides := Sides(rows[0]);
      var left := if |sides| <= room then room - |sides| else room;
      var rest, jobs := Take(rows[1..], left), Take(rows, room);
      TakenAreSides(rows[1..], left);
      if r == 0 {
        forall k | k in sides ensures k !in rest {
          OtherRowsHaveOtherSides(rows, k);
        }
        assert |sides| <= room ==> PairAt(jobs, rows[0], 0);
      } else {
        PairsStayTogether(rows[1..], left, r - 1);
        if i :| PairAt(rest, rows[r], i) {
          if |sides| <= room {
            PairShifts(sides, rest, rows[r], i);
          }
        }
        RowsShareNoSide(rows[0], rows[r]);
      }
    }
  }

  lemma TakeFirst(rows: seq<DuelRow>, rest: seq<DuelRow>, room: nat)
    requires rows != [] && rest == rows[1..] && room > 0
    ensures |Sides(rows[0])| <= room ==> Take(rows, room) == Sides(rows[0]) + Take(rest, room - |Sides(rows[0])|)
    ensures |Sides(rows[0])| > room ==> Take(rows, room) == Take(rest, room)
  {
  }

  lemma {:induction false} EveryRowHasASide(rows: seq<DuelRow>)
    requires EachLacksSide(rows)
    ensures |AllSides(rows)| >= |rows|
  {
    if rows != [] {
      EveryRowHasASide(rows[1..]);
    }
  }

  /** All but one unit of room is used unless every row was taken. */
  lemma {:induction false} TakeFills(rows: seq<DuelRow>, room: nat)
    requires EachLacksSide(rows)
    ensures |Take(rows, room)| >= room - 1 || Take(rows, room) == AllSides(rows)
  {
    if rows != [] && room > 0 {
      var rest := rows[1..];
      TakeFirst(rows, rest, room);
      TakeFills(rest, if |Sides(rows[0])| <= room then room - |Sides(rows[0])| else room);
    }
  }

  lemma TakeSplitsFirst(a: seq<DuelRow>, rest: seq<DuelRow>, b: seq<DuelRow>, room: nat, t: seq<JobKey>, u: seq<JobKey>)
    requires a != [] && rest == a[1..] && |Sides(a[0])| <= room && room > 0
    requires t == Take(rest, room - |Sides(a[0])|) && Take(rest + b, room - |Sides(a[0])|) == t + u
    ensures Take(a, room) == Sides(a[0]) + t && Take(a + b, room) == Take(a, room) + u
  {
    assert (a + b)[0] == a[0] && (a + b)[1..] == rest + b;
    TakeFirst(a, rest, room);
    TakeFirst(a + b, rest + b, room);
    PrependToSum(Sides(a[0]), t, u);
  }

  lemma {:induction false} TakeSplits(a: seq<DuelRow>, b: seq<DuelRow>, room: nat)
    ensures |Take(a, room)| <= room && Take(a + b, room) == Take(a, room) + Take(b, room - |Take(a, room)|)
  {
    TakeFits(a, room);
    if a == [] {
      assert a + b == b;
    } else if room > 0 {
      var rest := a[1..];
      assert (a + b)[0] == a[0] && (a + b)[1..] == rest + b;
      if |Sides(a[0])| <= room {
        var left := room - |Sides(a[0])|;
        TakeSplits(rest, b, left);
        var t := Take(rest, left);
        TakeSplitsFirst(a, rest, b, room, t, Take(b, left - |t|));
      } else {
        TakeFirst(a, rest, room);
        TakeFirst(a + b, rest + b, room);
        TakeSplits(rest, b, room);
      }
    }
  }

  lemma PrependToSum(s: seq<JobKey>, t: seq<JobKey>, u: seq<JobKey>)
    ensures s + (t + u) == s + t + u
  {
  }

  lemma {:induction false} OneSlotTakesSingles(rows: seq<DuelRow>)
    requires EachLacksSide(rows)
    ensures |Take(rows, 1)| <= 1
    ensures Take(rows, 1) == [] <==> forall i | 0 <= i < |rows| :: BothMissing(rows[i])
  {
    TakeFits(rows, 1);
    if rows != [] {
      OneSlotTakesSingles(rows[1..]);
      assert rows == [rows[0]] + rows[1..];
    }
  }

  lemma BeyondFillsOneSlot(window: seq<DuelRow>, beyond: seq<DuelRow>, limit: nat)
    requires EachLacksSide(window) && EachLacksSide(beyond) && |window| == 2 * limit
    ensures var (jobs, all) := (Take(window, limit), Take(window + beyond, limit));
      && all == jobs + (if |jobs| == limit - 1 then Take(beyond, 1) else [])
      && |Take(beyond, 1)| <= 1
  {
    TakeSplits(window, beyond, limit);
    TakeFills(window, limit);
    EveryRowHasASide(window);
    OneSlotTakesSingles(beyond);
  }

  /** Fetching only twice the limit in rows loses at most the last job, and exactly when one slot
      is left over and a task lacking a single side lies beyond the rows fetched. */
  lemma WindowLosesAtMostOne(rows: seq<DuelRow>, limit: nat)
    requires EachLacksSide(rows)
    ensures var (jobs, all) := (DuelJobs(rows, limit), Take(rows, limit));
      && jobs <= all && |all| <= |jobs| + 1
      && (jobs != all <==> |jobs| == limit - 1 && exists i :: 2 * limit <= i < |rows| && !BothMissing(rows[i]))
  {
    if 2 * limit >= |rows| {
      assert FirstOf(rows, 2 * limit) == rows;
    } else {
      var window, beyond := rows[..2 * limit], rows[2 * limit..];
      assert rows == window + beyond;
      BeyondFillsOneSlot(window, beyond, limit);
      OneSlotTakesSingles(beyond);
      SinglesBeyond(rows, 2 * limit);
      assert DuelJobs(rows, limit) == Take(window, limit);
    }
  }

  lemma SinglesBeyond(rows: seq<DuelRow>, from: nat)
    requires from <= |rows|
    ensures (exists i :: from <= i < |rows| && !BothMissing(rows[i]))
      <==> exists j :: 0 <= j < |rows| - from && !BothMissing(rows[from..][j])
  {
    if i :| from <= i < |rows| && !BothMissing(rows[i]) {
      assert !BothMissing(rows[from..][i - from]);
    }
    if j :| 0 <= j < |rows| - from && !BothMissing(rows[from..][j]) {
      assert !BothMissing(rows[from + j]);
    }
  }

  /** A positive limit brings no duel job exactly when there is no row at all, or the limit is one
      and the two rows fetched both lack both sides. */
  lemma NothingOfferedExactly(rows: seq<DuelRow>, limit: nat)
    requires EachLacksSide(rows) && limit > 0
    ensures DuelJobs(rows, limit) == []
      <==> rows == [] || (limit == 1 && forall i | 0 <= i < 2 && i < |rows| :: BothMissing(rows[i]))
  {
    var fetched := FirstOf(rows, 2 * limit);
    if limit == 1 {
      OneSlotTakesSingles(fetched);
    } else {
      TakeFills(fetched, limit);
      EveryRowHasASide(fetched);
    }
  }

  // ---------------------------------------------------------------- excluded jobs

  function ExcludedDuels(exclude: set<JobKey>): set<JobKey> {
    set k | k in exclude && k.DuelKey?
  }

  function ExcludedQualifications(exclude: set<JobKey>): set<JobKey> {
    set k | k in exclude && k.QualificationKey?
  }

  function DuelWork(rows: seq<DuelRow>, limit: nat, exclude: set<JobKey>): seq<JobKey> {
    FirstOf(Without(DuelJobs(rows, limit + |ExcludedDuels(exclude)|), exclude), limit)
  }

  function QualificationWork(queue: seq<JobKey>, remaining: nat, exclude: set<JobKey>): seq<JobKey> {
    if remaining == 0 then []
    else FirstOf(Without(FirstOf(queue, remaining + |ExcludedQualifications(exclude)|), exclude), remaining)
  }

  /** Duels first; qualification jobs fill what is left. */
  function PendingWork(rows: seq<DuelRow>, queue: seq<JobKey>, limit: nat, exclude: set<JobKey>): seq<JobKey> {
    var duels := DuelWork(rows, limit, exclude);
    duels + QualificationWork(queue, AtLeastZero(limit - |duels|), exclude)
  }

  /** The candidate tasks of the reigning king, in query order. */
  ghost predicate IsQueue(queue: seq<JobKey>) {
    Distinct(queue) && forall k | k in queue :: k.QualificationKey?
  }

  lemma {:induction false} FewAreExcluded(jobs: seq<JobKey>, exclude: set<JobKey>, hit: set<JobKey>)
    requires Distinct(jobs) && forall k | k in jobs && k in exclude :: k in hit
    ensures |Without(jobs, exclude)| >= |jobs| - |hit|
  {
    if jobs != [] {
      assert jobs == [jobs[0]] + jobs[1..];
      FewAreExcluded(jobs[1..], exclude, if jobs[0] in exclude then hit - {jobs[0]} else hit);
    }
  }

  lemma {:induction false} WideningIsEnough(queue: seq<JobKey>, exclude: set<JobKey>, hit: set<JobKey>, n: nat)
    requires Distinct(queue) && forall k | k in queue && k in exclude :: k in hit
    ensures FirstOf(Without(FirstOf(queue, n + |hit|), exclude), n) == FirstOf(Without(queue, exclude), n)
  {
    if queue != [] && n > 0 {
      var head, rest := queue[0], queue[1..];
      assert queue == [head] + rest;
      assert FirstOf(queue, n + |hit|) == [head] + FirstOf(rest, n + |hit| - 1);
      if head in exclude {
        assert |hit - {head}| == |hit| - 1;
        WideningIsEnough(rest, exclude, hit - {head}, n);
      } else {
        WideningIsEnough(rest, exclude, hit, n - 1);
        FirstOfCons(head, Without(rest, exclude), n);
        FirstOfCons(head, Without(FirstOf(rest, n + |hit| - 1), exclude), n);
      }
    }
  }

  lemma FirstOfCons(head: JobKey, rest: seq<JobKey>, n: nat)
    requires n > 0
    ensures FirstOf([head] + rest, n) == [head] + FirstOf(rest, n - 1)
  {
  }

  /** Widening the query by the number of excluded qualification jobs returns exactly the first
      eligible jobs of the whole queue: no running or cooling job crowds out another. */
  lemma QualificationIsExact(queue: seq<JobKey>, remaining: nat, exclude: set<JobKey>)
    requires IsQueue(queue)
    ensures QualificationWork(queue, remaining, exclude) == FirstOf(Without(queue, exclude), remaining)
  {
    if remaining > 0 {
      var hit := ExcludedQualifications(exclude);
      assert forall k | k in queue && k in exclude :: k in hit;
      WideningIsEnough(queue, exclude, hit, remaining);
    }
  }

  /** Duel work is passed over for qualification by at most one slot: either all but one of the
      free slots go to duels, or every eligible side in the table does. */
  lemma DuelsComeFirst(rows: seq<DuelRow>, limit: nat, exclude: set<JobKey>)
    requires IsTable(rows)
    ensures var work := DuelWork(rows, limit, exclude);
      |work| >= limit - 1 || work == Without(AllSides(rows), exclude)
  {
    var wide := limit + |ExcludedDuels(exclude)|;
    var jobs := DuelJobs(rows, wide);
    AllButOneOrAll(rows, wide);
    DuelJobsDiffer(rows, wide);
    AllButOneFresh(jobs, AllSides(rows), limit, exclude, ExcludedDuels(exclude));
  }

  lemma AllButOneFresh(jobs: seq<JobKey>, all: seq<JobKey>, limit: nat, exclude: set<JobKey>, hit: set<JobKey>)
    requires Distinct(jobs) && forall k | k in jobs && k in exclude :: k in hit
    requires |jobs| >= limit + |hit| - 1 || jobs == all
    ensures |FirstOf(Without(jobs, exclude), limit)| >= limit - 1
         || FirstOf(Without(jobs, exclude), limit) == Without(all, exclude)
  {
    FewAreExcluded(jobs, exclude, hit);
  }

  lemma AllButOneOrAll(rows: seq<DuelRow>, limit: nat)
    requires EachLacksSide(rows)
    ensures |DuelJobs(rows, limit)| >= limit - 1 || DuelJobs(rows, limit) == AllSides(rows)
  {
    TakeFills(FirstOf(rows, 2 * limit), limit);
    EveryRowHasASide(FirstOf(rows, 2 * limit));
  }

  lemma DuelJobsDiffer(rows: seq<DuelRow>, limit: nat)
    requires IsTable(rows)
    ensures Distinct(DuelJobs(rows, limit)) && forall k | k in DuelJobs(rows, limit) :: k.DuelKey?
  {
    TakeIsDistinct(FirstOf(rows, 2 * limit), limit);
    TakesDuelKeys(FirstOf(rows, 2 * limit), limit);
  }

  lemma {:induction false} TakesDuelKeys(rows: seq<DuelRow>, room: nat)
    ensures forall k | k in Take(rows, room) :: k.DuelKey?
  {
    if rows != [] && room > 0 {
      var sides := Sides(rows[0]);
      TakesDuelKeys(rows[1..], if |sides| <= room then room - |sides| else room);
    }
  }

  ghost predicate AreFresh(work: seq<JobKey>, limit: nat, exclude: set<JobKey>) {
    |work| <= limit && Distinct(work) && forall k | k in work :: k !in exclude
  }

  lemma FirstFresh(jobs: seq<JobKey>, limit: nat, exclude: set<JobKey>)
    requires Distinct(jobs)
    ensures AreFresh(FirstOf(Without(jobs, exclude), limit), limit, exclude)
    ensures forall k | k in FirstOf(Without(jobs, exclude), limit) :: k in jobs
  {
    WithoutKeeps(jobs, exclude);
    WithoutStaysDistinct(jobs, exclude);
    var left := Without(jobs, exclude);
    assert forall k | k in FirstOf(left, limit) :: k in left;
  }

  lemma DuelWorkIsFresh(rows: seq<DuelRow>, limit: nat, exclude: set<JobKey>)
    requires IsTable(rows)
    ensures AreFresh(DuelWork(rows, limit, exclude), limit, exclude)
    ensures forall k | k in DuelWork(rows, limit, exclude) :: k.DuelKey?
  {
    var jobs := DuelJobs(rows, limit + |ExcludedDuels(exclude)|);
    DuelJobsDiffer(rows, limit + |ExcludedDuels(exclude)|);
    FirstFresh(jobs, limit, exclude);
  }

  lemma QualificationWorkIsFresh(queue: seq<JobKey>, remaining: nat, exclude: set<JobKey>)
    requires IsQueue(queue)
    ensures AreFresh(QualificationWork(queue, remaining, exclude), remaining, exclude)
    ensures forall k | k in QualificationWork(queue, remaining, exclude) :: k.QualificationKey?
  {
    QualificationIsExact(queue, remaining, exclude);
    FirstFresh(queue, remaining, exclude);
  }

  /** The scheduler is offered at most as many jobs as it has slots, all different and none of
      them running or cooling down. */
  lemma PendingWorkIsFresh(rows: seq<DuelRow>, queue: seq<JobKey>, limit: nat, exclude: set<JobKey>)
    requires IsTable(rows) && IsQueue(queue)
    ensures AreFresh(PendingWork(rows, queue, limit, exclude), limit, exclude)
  {
    var duels := DuelWork(rows, limit, exclude);
    var remaining := AtLeastZero(limit - |duels|);
    DuelWorkIsFresh(rows, limit, exclude);
    QualificationWorkIsFresh(queue, remaining, exclude);
    FreshTogether(duels, QualificationWork(queue, remaining, exclude), exclude);
  }

  lemma FreshTogether(duels: seq<JobKey>, rest: seq<JobKey>, exclude: set<JobKey>)
    requires Distinct(duels) && forall k | k in duels :: k.DuelKey? && k !in exclude
    requires Distinct(rest) && forall k | k in rest :: k.QualificationKey? && k !in exclude
    ensures Distinct(duels + rest) && forall k | k in duels + rest :: k !in exclude
  {
    AppendIsDistinct(duels, rest);
  }

  // ---------------------------------------------------------------- pairs after exclusion

  /** The fresh jobs that were offered before position i. */
  function FreshBefore(jobs: seq<JobKey>, i: nat, exclude: set<JobKey>): nat
    requires i <= |jobs|
  {
    |Without(jobs[..i], exclude)|
  }

  lemma PairStaysAdjacent(jobs: seq<JobKey>, row: DuelRow, i: nat, exclude: set<JobKey>)
    requires PairAt(jobs, row, i) && forall k | k in Sides(row) :: k !in exclude
    ensures PairAt(Without(jobs, exclude), row, FreshBefore(jobs, i, exclude))
  {
    var first, second := jobs[i], jobs[i + 1];
    assert Sides(row)[0] in Sides(row) && Sides(row)[1] in Sides(row);
    assert jobs == jobs[..i] + ([first, second] + jobs[i + 2..]);
    WithoutSplit(jobs[..i], [first, second] + jobs[i + 2..], exclude);
    WithoutSplit([first, second], jobs[i + 2..], exclude);
    assert [first, second][1..] == [second];
    assert Without([first, second], exclude) == [first, second];
  }

  lemma PairsAreUnique(jobs: seq<JobKey>, row: DuelRow, i: nat, j: nat)
    requires Distinct(jobs) && PairAt(jobs, row, i) && j < |jobs| && jobs[j] == Sides(row)[0]
    ensures i == j
  {
  }

  lemma CutKeepsPairExactly(jobs: seq<JobKey>, row: DuelRow, at: nat, limit: nat)
    requires Distinct(jobs) && PairAt(jobs, row, at)
    ensures (exists n :: PairAt(FirstOf(jobs, limit), row, n)) <==> at + 2 <= limit
    ensures at + 1 == limit ==> |FirstOf(jobs, limit)| == limit && FirstOf(jobs, limit)[at] == Sides(row)[0]
  {
    var kept := FirstOf(jobs, limit);
    if n :| PairAt(kept, row, n) {
      PairsAreUnique(jobs, row, at, n);
    }
    assert at + 2 <= limit ==> PairAt(kept, row, at);
  }

  lemma WholePairIsFresh(work: seq<JobKey>, row: DuelRow, n: nat, exclude: set<JobKey>)
    requires PairAt(work, row, n) && forall k | k in work :: k !in exclude
    ensures forall k | k in Sides(row) :: k !in exclude
  {
    assert work[n] in work && work[n + 1] in work;
  }

  predicate Untouched(row: DuelRow, exclude: set<JobKey>) {
    forall k | k in Sides(row) :: k !in exclude
  }

  /** When a pair the query offers survives to the scheduler: exactly when neither side is running or
      cooling down and both fit below the cut after exclusion.  At the cut itself its first side is
      launched alone. */
  lemma PairSurvivesExactly(rows: seq<DuelRow>, limit: nat, exclude: set<JobKey>, row: DuelRow, i: nat)
    requires IsTable(rows) && PairAt(DuelJobs(rows, limit + |ExcludedDuels(exclude)|), row, i)
    ensures var at := FreshBefore(DuelJobs(rows, limit + |ExcludedDuels(exclude)|), i, exclude);
      var work := DuelWork(rows, limit, exclude);
      && ((exists n :: PairAt(work, row, n)) <==> Untouched(row, exclude) && at + 2 <= limit)
      && (Untouched(row, exclude) && at + 1 == limit ==> |work| == limit && work[at] == Sides(row)[0])
  {
    var jobs, work := DuelJobs(rows, limit + |ExcludedDuels(exclude)|), DuelWork(rows, limit, exclude);
    if Untouched(row, exclude) {
      UntouchedPairIsCut(rows, limit, exclude, row, i);
    } else if n :| PairAt(work, row, n) {
      DuelWorkIsFresh(rows, limit, exclude);
      WholePairIsFresh(work, row, n, exclude);
    }
  }

  lemma UntouchedPairIsCut(rows: seq<DuelRow>, limit: nat, exclude: set<JobKey>, row: DuelRow, i: nat)
    requires IsTable(rows) && PairAt(DuelJobs(rows, limit + |ExcludedDuels(exclude)|), row, i) && Untouched(row, exclude)
    ensures var at := FreshBefore(DuelJobs(rows, limit + |ExcludedDuels(exclude)|), i, exclude);
      var work := DuelWork(rows, limit, exclude);
      && ((exists n :: PairAt(work, row, n)) <==> at + 2 <= limit)
      && (at + 1 == limit ==> |work| == limit && work[at] == Sides(row)[0])
  {
    var jobs := DuelJobs(rows, limit + |ExcludedDuels(exclude)|);
    DuelJobsDiffer(rows, limit + |ExcludedDuels(exclude)|);
    WithoutStaysDistinct(jobs, exclude);
    PairStaysAdjacent(jobs, row, i, exclude);
    CutKeepsPairExactly(Without(jobs, exclude), row, FreshBefore(jobs, i, exclude), limit);
    var work := DuelWork(rows, limit, exclude);
    assert work == FirstOf(Without(jobs, exclude), limit);
  }

  // ---------------------------------------------------------------- polls without duel work

  lemma {:induction false} TakeAllThatFit(rows: seq<DuelRow>, room: nat)
    requires |AllSides(rows)| <= room
    ensures Take(rows, room) == AllSides(rows)
  {
    if rows != [] && room > 0 {
      TakeAllThatFit(rows[1..], room - |Sides(rows[0])|);
    }
  }

  lemma {:induction false} AllSidesSplit(a: seq<DuelRow>, b: seq<DuelRow>)
    ensures AllSides(a + b) == AllSides(a) + AllSides(b)
  {
    if a == [] {
      assert a + b == b;
    } else {
      assert (a + b)[0] == a[0] && (a + b)[1..] == a[1..] + b;
      AllSidesSplit(a[1..], b);
      PrependToSum(Sides(a[0]), AllSides(a[1..]), AllSides(b));
    }
  }

  /** The fetched rows are first those of the busy duel jobs, all of them, and then only rows that
      lack both sides. */
  predicate StuckAt(fetched: seq<DuelRow>, exclude: set<JobKey>, b: nat) {
    && b <= |fetched|
    && |AllSides(fetched[..b])| == |ExcludedDuels(exclude)|
    && (forall k | k in AllSides(fetched[..b]) :: k in exclude)
    && forall i | b <= i < |fetched| :: BothMissing(fetched[i])
  }

  ghost predicate StuckSomewhere(fetched: seq<DuelRow>, exclude: set<JobKey>) {
    exists b :: StuckAt(fetched, exclude, b)
  }

  ghost predicate Stuck(rows: seq<DuelRow>, exclude: set<JobKey>) {
    StuckSomewhere(FirstOf(rows, 2 * (1 + |ExcludedDuels(exclude)|)), exclude)
  }

  lemma StuckOffersBusyOnly(fetched: seq<DuelRow>, exclude: set<JobKey>, b: nat)
    requires EachLacksSide(fetched) && StuckAt(fetched, exclude, b)
    ensures forall k | k in Take(fetched, 1 + |ExcludedDuels(exclude)|) :: k in exclude
  {
    var front, back := fetched[..b], fetched[b..];
    assert fetched == front + back;
    TakeSplits(front, back, 1 + |ExcludedDuels(exclude)|);
    TakeAllThatFit(front, 1 + |ExcludedDuels(exclude)|);
    OneSlotTakesSingles(back);
  }

  /** When the loop leaves one unit of room, it took whole rows from the front and skipped pairs. */
  lemma {:induction false} OneUnitLeft(rows: seq<DuelRow>, room: nat) returns (b: nat)
    requires EachLacksSide(rows) && |Take(rows, room)| + 1 == room
    ensures b <= |rows| && AllSides(rows[..b]) == Take(rows, room)
    ensures forall i | b <= i < |rows| :: BothMissing(rows[i])
  {
    if rows == [] {
      b := 0;
    } else {
      var sides, rest := Sides(rows[0]), rows[1..];
      TakeFirst(rows, rest, room);
      if |sides| <= room {
        var tail := OneUnitLeft(rest, room - |sides|);
        b := tail + 1;
        assert rows[..b][0] == rows[0] && rows[..b][1..] == rest[..tail];
        assert AllSides(rows[..b]) == sides + AllSides(rest[..tail]);
        assert forall i | b <= i < |rows| :: rows[i] == rest[i - 1];
      } else {
        b := 0;
        OneSlotTakesSingles(rest);
        assert forall i | 1 <= i < |rows| :: rows[i] == rest[i - 1];
      }
    }
  }

  lemma {:induction false} AllGoneExactly(jobs: seq<JobKey>, gone: set<JobKey>)
    ensures Without(jobs, gone) == [] <==> forall k | k in jobs :: k in gone
  {
    WithoutKeeps(jobs, gone);
    if Without(jobs, gone) != [] {
      assert Without(jobs, gone)[0] in Without(jobs, gone);
    }
  }

  lemma {:induction false} FewBusyJobs(jobs: seq<JobKey>, hit: set<JobKey>)
    requires Distinct(jobs) && forall k | k in jobs :: k in hit
    ensures |jobs| <= |hit|
  {
    FewAreExcluded(jobs, hit, hit);
    AllGoneExactly(jobs, hit);
  }

  lemma BusyOffersAreStuck(rows: seq<DuelRow>, exclude: set<JobKey>)
    requires IsTable(rows) && Without(AllSides(rows), exclude) != []
    requires forall k | k in DuelJobs(rows, 1 + |ExcludedDuels(exclude)|) :: k in exclude
    ensures Stuck(rows, exclude)
  {
    var room := 1 + |ExcludedDuels(exclude)|;
    var fetched := FirstOf(rows, 2 * room);
    var jobs := Take(fetched, room);
    DuelJobsDiffer(rows, room);
    FewBusyJobs(jobs, ExcludedDuels(exclude));
    AllButOneOrAll(rows, room);
    AllGoneExactly(AllSides(rows), exclude);
    var b := OneUnitLeft(fetched, room);
    assert StuckAt(fetched, exclude, b);
  }

  lemma OfferedAreSides(rows: seq<DuelRow>, limit: nat)
    ensures forall k | k in DuelJobs(rows, limit) :: k in AllSides(rows)
  {
    var fetched := FirstOf(rows, 2 * limit);
    TakenAreSides(fetched, limit);
    assert rows == fetched + rows[|fetched|..];
    AllSidesSplit(fetched, rows[|fetched|..]);
  }

  lemma NoDuelWorkMeansBusyOffers(rows: seq<DuelRow>, limit: nat, exclude: set<JobKey>)
    requires limit > 0
    ensures DuelWork(rows, limit, exclude) == []
      <==> forall k | k in DuelJobs(rows, limit + |ExcludedDuels(exclude)|) :: k in exclude
  {
    AllGoneExactly(DuelJobs(rows, limit + |ExcludedDuels(exclude)|), exclude);
  }

  lemma NothingFreshMeansNoWork(rows: seq<DuelRow>, limit: nat, exclude: set<JobKey>)
    requires limit > 0 && Without(AllSides(rows), exclude) == []
    ensures DuelWork(rows, limit, exclude) == []
  {
    NoDuelWorkMeansBusyOffers(rows, limit, exclude);
    AllGoneExactly(AllSides(rows), exclude);
    OfferedAreSides(rows, limit + |ExcludedDuels(exclude)|);
  }

  lemma OneSlotIsStuckExactly(rows: seq<DuelRow>, exclude: set<JobKey>)
    requires IsTable(rows) && Without(AllSides(rows), exclude) != []
    ensures DuelWork(rows, 1, exclude) == [] <==> Stuck(rows, exclude)
  {
    NoDuelWorkMeansBusyOffers(rows, 1, exclude);
    if Stuck(rows, exclude) {
      var fetched := FirstOf(rows, 2 * (1 + |ExcludedDuels(exclude)|));
      var b :| StuckAt(fetched, exclude, b);
      StuckOffersBusyOnly(fetched, exclude, b);
    } else if DuelWork(rows, 1, exclude) == [] {
      BusyOffersAreStuck(rows, exclude);
    }
  }

  /** Exactly when a poll launches no duel job, whatever is running or cooling down: there is no free
      slot, no missing side is fresh, or there is one free slot and the query is stuck behind pairs.
      With nothing busy the last means that both fetched rows lack both sides. */
  lemma NoDuelWorkExactly(rows: seq<DuelRow>, limit: nat, exclude: set<JobKey>)
    requires IsTable(rows)
    ensures DuelWork(rows, limit, exclude) == []
      <==> limit == 0 || Without(AllSides(rows), exclude) == [] || (limit == 1 && Stuck(rows, exclude))
  {
    if limit > 0 {
      if Without(AllSides(rows), exclude) == [] {
        NothingFreshMeansNoWork(rows, limit, exclude);
      } else if limit == 1 {
        OneSlotIsStuckExactly(rows, exclude);
      } else {
        DuelsComeFirst(rows, limit, exclude);
      }
    }
  }

  /** The two rows one slot looks at when no duel job is busy. */
  predicate FirstTwoArePairs(rows: seq<DuelRow>) {
    forall i | 0 <= i < 2 && i < |rows| :: BothMissing(rows[i])
  }

  lemma IdleDuelsLaunchNoneExactly(rows: seq<DuelRow>, limit: nat, exclude: set<JobKey>)
    requires EachLacksSide(rows) && ExcludedDuels(exclude) == {}
    ensures DuelWork(rows, limit, exclude) == []
      <==> limit == 0 || rows == [] || (limit == 1 && FirstTwoArePairs(rows))
  {
    if limit > 0 {
      var jobs := DuelJobs(rows, limit);
      TakesDuelKeys(FirstOf(rows, 2 * limit), limit);
      assert forall k | k in jobs :: k !in ExcludedDuels(exclude);
      NoDuelWorkMeansBusyOffers(rows, limit, exclude);
      NothingOfferedExactly(rows, limit);
      if jobs != [] {
        assert jobs[0] in jobs;
      }
    }
  }

  lemma PendingDuelsExactly(rows: seq<DuelRow>, queue: seq<JobKey>, limit: nat, exclude: set<JobKey>)
    requires IsTable(rows) && IsQueue(queue)
    ensures (exists k | k in PendingWork(rows, queue, limit, exclude) :: k.DuelKey?) <==> DuelWork(rows, limit, exclude) != []
  {
    var duels := DuelWork(rows, limit, exclude);
    var rest := QualificationWork(queue, AtLeastZero(limit - |duels|), exclude);
    DuelWorkIsFresh(rows, limit, exclude);
    QualificationWorkIsFresh(queue, AtLeastZero(limit - |duels|), exclude);
    assert forall k | k in duels + rest :: k in duels || k in rest;
    if duels != [] {
      assert duels[0] in duels + rest;
    }
  }

  // ---------------------------------------------------------------- which sides

  /** The side of a submission in a row is missing. */
  predicate LacksSide(row: DuelRow, side: Id) {
    (side == row.king && row.missingKing) || (side == row.challenger && row.missingChallenger)
  }

  /** Exactly the missing sides of the rows are offered jobs for: of each task and challenge, the solve of the
      king if that is missing and of the challenger if that is. */
  lemma {:induction false} SidesAreTheMissingOnes(rows: seq<DuelRow>, task: string, side: Id, challenger: Id)
    ensures DuelKey(task, side, challenger) in AllSides(rows)
      <==> exists i :: 0 <= i < |rows| && rows[i].task == task && rows[i].challenger == challenger && LacksSide(rows[i], side)
  {
    if rows != [] {
      SidesAreTheMissingOnes(rows[1..], task, side, challenger);
      var k := DuelKey(task, side, challenger);
      var here := rows[0].task == task && rows[0].challenger == challenger && LacksSide(rows[0], side);
      assert k in Sides(rows[0]) <==> here;
      if here {
        assert LacksSide(rows[0], side);
      }
      if i :| 0 <= i < |rows| && rows[i].task == task && rows[i].challenger == challenger && LacksSide(rows[i], side) {
        assert i > 0 ==> LacksSide(rows[1..][i - 1], side);
      }
      if i :| 0 <= i < |rows[1..]| && rows[1..][i].task == task && rows[1..][i].challenger == challenger
              && LacksSide(rows[1..][i], side) {
        assert LacksSide(rows[i + 1], side);
      }
    }
  }

  /** A pair is offered in the hashed order: the king's solve first exactly if the hash says so. */
  lemma PairsAreInHashedOrder(jobs: seq<JobKey>, row: DuelRow, i: nat)
    requires PairAt(jobs, row, i)
    ensures var (first, second) := if row.kingFirst then (row.king, row.challenger) else (row.challenger, row.king);
      jobs[i] == DuelKey(row.task, first, row.challenger) && jobs[i + 1] == DuelKey(row.task, second, row.challenger)
  {
  }

  /** The rows are gone through in order, and a row is taken exactly if its missing sides fit in what the
      rows before it left. */
  lemma RowsAreTakenInOrder(before: seq<DuelRow>, row: DuelRow, after: seq<DuelRow>, room: nat)
    ensures var taken := Take(before, room);
      var fits := |taken| + |Sides(row)| <= room;
      && |taken| <= room && taken <= Take(before + [row] + after, room)
      && Take(before + [row], room) == (if fits then taken + Sides(row) else taken)
      && Take(before + [row], room) <= Take(before + [row] + after, room)
  {
    TakeSplits(before, [row], room);
    var left := room - |Take(before, room)|;
    assert [row][1..] == [];
    assert Take([row], left) == if |Sides(row)| <= left then Sides(row) else [];
    TakeSplits(before + [row], after, room);
  }
}
