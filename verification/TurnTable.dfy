/** The turn-accounting table of the review pipeline (`pr_review_turns`), its atomic
    operations, and what is read off it: the next turn, the posted-session count behind
    the per-PR cap, and the codex badge on the board. */
module TurnTable {
  import opened Prelude

  /** Lifetime cap on posted codex review sessions of one pull request. */
  const MAX_REVIEWS_PER_PR: nat := 5

  datatype Stage = Opencode | Codex

  datatype Status = Running | Completed | TimedOut | Failed

  datatype Key = Key(pr: string, sha: string, stage: Stage, turn: nat)

  datatype Row = Row(
    project: nat,
    status: Status,
    findingCount: Option<nat>,
    consensus: bool,
    session: Option<nat>,
    posted: bool,
    recorded: bool,
    dbError: bool
  )

  type Table = map<Key, Row>

  // ---- Atomic operations ----------------------------------------------------------

  function Claimed(project: nat, session: nat): Row {
    Row(project, Running, None, false, Some(session), false, false, false)
  }

  /** A run can own a turn that has no row yet or a failed one. */
  predicate CanWin(rows: Table, k: Key) {
    k in rows ==> rows[k].status == Failed
  }

  /** When a finished codex loop triggers CI: on consensus, or when it used the last turn and
      nothing in it may be retried. */
  predicate DispatchesCi(stage: Stage, consensus: bool, turnsUsed: nat, maxTurns: nat, retryable: bool)
  {
    stage == Codex && (consensus || (turnsUsed == maxTurns && !retryable))
  }

  predicate CanReset(rows: Table, k: Key) {
    k in rows && rows[k].status == Failed
  }

  function ResetRow(r: Row): Row {
    r.(status := Running, findingCount := None, consensus := false)
  }

  function Complete(rows: Table, k: Key, status: Status, count: Option<nat>, consensus: bool): Table {
    if k in rows then rows[k := rows[k].(status := status, findingCount := count, consensus := consensus)] else rows
  }

  function MarkPosted(rows: Table, k: Key): Table {
    if k in rows then rows[k := rows[k].(posted := true)] else rows
  }

  function RecordFindings(rows: Table, k: Key): Table {
    if k in rows then rows[k := rows[k].(recorded := true)] else rows
  }

  function StampDbError(rows: Table, k: Key): Table {
    if k in rows then rows[k := rows[k].(dbError := true)] else rows
  }

  /** The repository object over the table. Each method is one committed statement. */
  class ReviewTurnRepository {
    var rows: Table

    constructor ()
      ensures rows == map[]
    {
      rows := map[];
    }

    /** Insert, or do nothing when the key exists. */
    method ClaimTurn(k: Key, project: nat, session: nat) returns (won: bool)
      modifies this
      ensures won == (k !in old(rows))
      ensures rows == if won then old(rows)[k := Claimed(project, session)] else old(rows)
    {
      won := k !in rows;
      if won {
        rows := rows[k := Claimed(project, session)];
      }
    }

    method CompleteTurn(k: Key, status: Status, count: Option<nat>, consensus: bool)
      modifies this
      ensures rows == Complete(old(rows), k, status, count, consensus)
    {
      if k !in rows {
        return;
      }
      rows := rows[k := rows[k].(status := status, findingCount := count, consensus := consensus)];
    }

    /** Failed to running, and nothing else. */
    method ResetToRunning(k: Key) returns (ok: bool)
      modifies this
      ensures ok == CanReset(old(rows), k)
      ensures rows == if ok then old(rows)[k := ResetRow(old(rows)[k])] else old(rows)
    {
      ok := k in rows && rows[k].status == Failed;
      if ok {
        rows := rows[k := ResetRow(rows[k])];
      }
    }

    /** The rows of one stage of a commit. */
    method TurnsForStage(pr: string, sha: string, stage: Stage) returns (existing: seq<Snapshot>)
      ensures ListsStage(rows, pr, sha, stage, existing)
    {
      existing := [];
      var left := rows.Keys;
      while left != {}
        invariant left <= rows.Keys
        invariant forall s :: s in existing ==>
                    Key(pr, sha, stage, s.turn) in rows && rows[Key(pr, sha, stage, s.turn)] == s.row
        invariant forall k :: k in rows && k !in left && k.pr == pr && k.sha == sha && k.stage == stage ==>
                    Snapshot(k.turn, rows[k]) in existing
        decreases left
      {
        var k :| k in left;
        left := left - {k};
        if k.pr == pr && k.sha == sha && k.stage == stage {
          existing := existing + [Snapshot(k.turn, rows[k])];
        }
      }
    }

    method MarkTurnPosted(k: Key) returns (stamped: bool)
      modifies this
      ensures stamped == (k in old(rows) && !old(rows)[k].posted)
      ensures rows == MarkPosted(old(rows), k)
    {
      stamped := k in rows && !rows[k].posted;
      if stamped {
        rows := rows[k := rows[k].(posted := true)];
      }
    }

    method RecordTurnFindings(k: Key)
      modifies this
      ensures rows == RecordFindings(old(rows), k)
    {
      if k in rows {
        rows := rows[k := rows[k].(recorded := true)];
      }
    }

    method SetDbError(k: Key)
      modifies this
      ensures rows == StampDbError(old(rows), k)
    {
      if k in rows {
        rows := rows[k := rows[k].(dbError := true)];
      }
    }
  }

  // ---- Reading the table ----------------------------------------------------------

  /** The turn numbers that have a row for one (pull request, commit, stage). */
  function Turns(rows: Table, pr: string, sha: string, stage: Stage): set<nat> {
    set k | k in rows && k.pr == pr && k.sha == sha && k.stage == stage :: k.turn
  }

  function FailedTurns(rows: Table, pr: string, sha: string, stage: Stage): set<nat> {
    set k | k in rows && k.pr == pr && k.sha == sha && k.stage == stage && rows[k].status == Failed :: k.turn
  }

  /** Where a run resumes: turn 1 on an empty stage, else the lowest failed turn, else the
      turn after the highest. */
  ghost function NextTurn(rows: Table, pr: string, sha: string, stage: Stage): nat {
    if Turns(rows, pr, sha, stage) == {} then 1
    else if FailedTurns(rows, pr, sha, stage) != {} then Lowest(FailedTurns(rows, pr, sha, stage))
    else Highest(Turns(rows, pr, sha, stage)) + 1
  }

  function ConsensusTurns(rows: Table, pr: string, sha: string, stage: Stage): set<nat> {
    set k | k in rows && k.pr == pr && k.sha == sha && k.stage == stage && rows[k].consensus :: k.turn
  }

  function PostedTurns(rows: Table, pr: string, sha: string, stage: Stage): set<nat> {
    set k | k in rows && k.pr == pr && k.sha == sha && k.stage == stage
            && (rows[k].posted || rows[k].status == Completed) :: k.turn
  }

  predicate AtConsensus(rows: Table, pr: string, sha: string, stage: Stage) {
    ConsensusTurns(rows, pr, sha, stage) != {}
  }

  /** The session has a posted turn on this commit already, or an old row without a session
      number looks posted. */
  predicate SessionPosted(rows: Table, pr: string, sha: string, stage: Stage, session: nat) {
    exists k :: k in rows && k.pr == pr && k.sha == sha && k.stage == stage
      && ((rows[k].posted && rows[k].session == Some(session))
          || (rows[k].session.None? && rows[k].status == Completed && rows[k].findingCount.Some?))
  }

  datatype Snapshot = Snapshot(turn: nat, row: Row)

  /** `existing` lists the rows of one stage, in some order. */
  ghost predicate ListsStage(rows: Table, pr: string, sha: string, stage: Stage,
                             existing: seq<Snapshot>)
  {
    && (forall s :: s in existing ==> Key(pr, sha, stage, s.turn) in rows && rows[Key(pr, sha, stage, s.turn)] == s.row)
    && (forall k :: k in rows && k.pr == pr && k.sha == sha && k.stage == stage ==>
         Snapshot(k.turn, rows[k]) in existing)
  }

  /** `_compute_next_turn`, over the listed rows. */
  method ComputeNextTurn(existing: seq<Snapshot>, ghost rows: Table, pr: string, sha: string,
                         stage: Stage)
    returns (n: nat)
    requires ListsStage(rows, pr, sha, stage, existing)
    ensures n == NextTurn(rows, pr, sha, stage)
  {
    ghost var ts, failed := Turns(rows, pr, sha, stage), FailedTurns(rows, pr, sha, stage);
    assert forall t :: t in ts ==> Snapshot(t, rows[Key(pr, sha, stage, t)]) in existing;
    assert forall t :: t in failed ==> Snapshot(t, rows[Key(pr, sha, stage, t)]) in existing;
    if |existing| == 0 {
      assert ts == {};
      return 1;
    }
    assert existing[0] in existing && existing[0].turn in ts;
    var lowestFailed: Option<nat> := None;
    var highest := existing[0].turn;
    for i := 0 to |existing|
      invariant highest in ts
      invariant forall j :: 0 <= j < i ==> existing[j].turn <= highest
      invariant lowestFailed.Some? ==> lowestFailed.value in failed
      invariant forall j :: 0 <= j < i && existing[j].row.status == Failed ==>
                  lowestFailed.Some? && lowestFailed.value <= existing[j].turn
    {
      assert existing[i] in existing;
      if existing[i].turn > highest {
        highest := existing[i].turn;
      }
      if existing[i].row.status == Failed && (lowestFailed.None? || existing[i].turn < lowestFailed.value) {
        lowestFailed := Some(existing[i].turn);
      }
    }
    if lowestFailed.Some? {
      return lowestFailed.value;
    }
    return highest + 1;
  }

  // ---- The session cap and the codex badge ----------------------------------------

  predicate CountsForCap(rows: Table, pr: string, k: Key) {
    k in rows && k.pr == pr && k.stage == Codex && rows[k].posted && rows[k].session.Some?
  }

  /** The distinct session numbers that have posted a codex review on the pull request. */
  function PostedSessions(rows: Table, pr: string): set<nat> {
    set k | k in rows && CountsForCap(rows, pr, k) :: rows[k].session.value
  }

  /** `_should_skip_for_cap`: whether to skip, and whether the cap is the reason. */
  function ShouldSkipForCap(priorSessions: nat, latestIsApproval: bool): (bool, bool) {
    if latestIsApproval then (true, false)
    else if priorSessions >= MAX_REVIEWS_PER_PR then (true, true)
    else (false, false)
  }

  datatype CodexStatus =
    NotStarted | Stale | Working | Pass | FailedBadge | Exhausted | Progress(turn: nat, maxTurns: nat)

  /** The rows a project's board reads for one pull request. */
  function CodexRows(rows: Table, project: nat, pr: string): Table {
    map k | k in rows && rows[k].project == project && k.stage == Codex && k.pr == pr :: rows[k]
  }

  ghost predicate IsLatest(current: Table, k: Key) {
    k in current && forall j :: j in current ==> j.turn <= k.turn
  }

  lemma {:induction false} LatestExists(current: Table)
    requires current != map[]
    ensures exists k :: IsLatest(current, k)
    decreases |current|
  {
    var k :| k in current;
    var rest := current - {k};
    if rest == map[] {
      forall j | j in current
        ensures j == k
      {
        assert j != k ==> j in rest;
      }
      assert IsLatest(current, k);
    } else {
      LatestExists(rest);
      var m :| IsLatest(rest, m);
      var top := if m.turn < k.turn then k else m;
      assert forall j :: j in current ==> j == k || j in rest;
      assert IsLatest(current, top);
    }
  }

  /** A row with the highest turn number. */
  ghost function Latest(current: Table): (k: Key)
    requires current != map[]
    ensures IsLatest(current, k)
  {
    LatestExists(current);
    var k :| IsLatest(current, k);
    k
  }

  function OfCommit(all: Table, sha: string): Table {
    map k | k in all && k.sha == sha :: all[k]
  }

  /** `_derive_codex_status` over the rows of one pull request. */
  ghost function DeriveCodexStatus(all: Table, sha: string, maxTurns: nat, maxSessions: nat,
                                   pr: string): CodexStatus
  {
    var current := OfCommit(all, sha);
    if sha == "" then NotStarted
    else if current == map[] then
      if all != map[] then
        if |PostedSessions(all, pr)| >= maxSessions then Exhausted else Stale
      else NotStarted
    else if exists k :: k in current && current[k].status == Running then Working
    else if exists k :: k in current
              && current[k].status == Completed && current[k].consensus && !current[k].dbError then Pass
    else
      var last := current[Latest(current)];
      if last.status == TimedOut || last.status == Failed then FailedBadge
      else if last.dbError then FailedBadge
      else if |PostedSessions(all, pr)| >= maxSessions then Exhausted
      else Progress(|set k | k in current && current[k].status == Completed|, maxTurns)
  }

  /** The badge of a pull request on a project's board. */
  ghost function Badge(rows: Table, project: nat, pr: string, sha: string, maxTurns: nat): CodexStatus {
    DeriveCodexStatus(CodexRows(rows, project, pr), sha, maxTurns, MAX_REVIEWS_PER_PR, pr)
  }

  /** A codex row of the pull request that the project's board reads. */
  predicate OnBoard(rows: Table, project: nat, pr: string, k: Key) {
    k in rows && rows[k].project == project && k.stage == Codex && k.pr == pr
  }

  predicate OnCommit(rows: Table, project: nat, pr: string, sha: string, k: Key) {
    OnBoard(rows, project, pr, k) && k.sha == sha
  }

  ghost predicate HasPost(rows: Table, pr: string, session: nat) {
    exists k :: k in rows && k.pr == pr && k.stage == Codex && rows[k].posted && rows[k].session == Some(session)
  }

  ghost predicate ShowsPost(rows: Table, project: nat, pr: string, session: nat) {
    exists k :: OnBoard(rows, project, pr, k) && rows[k].posted && rows[k].session == Some(session)
  }

  /** Each of five sessions has posted a codex review on the pull request. */
  ghost predicate FivePosted(rows: Table, pr: string, five: set<nat>) {
    |five| == 5 && forall n :: n in five ==> HasPost(rows, pr, n)
  }

  ghost predicate FiveShown(rows: Table, project: nat, pr: string, five: set<nat>) {
    |five| == 5 && forall n :: n in five ==> ShowsPost(rows, project, pr, n)
  }

  /** As many sessions as the cap allows have posted, as far as the board sees. */
  ghost predicate Spent(rows: Table, project: nat, pr: string) {
    exists five :: FiveShown(rows, project, pr, five)
  }

  ghost predicate IsRunning(rows: Table, project: nat, pr: string, sha: string) {
    exists k :: OnCommit(rows, project, pr, sha, k) && rows[k].status == Running
  }

  /** Some turn of the commit agreed, and its findings were saved. */
  ghost predicate HasPassed(rows: Table, project: nat, pr: string, sha: string) {
    exists k :: OnCommit(rows, project, pr, sha, k)
      && rows[k].status == Completed && rows[k].consensus && !rows[k].dbError
  }

  /** The highest turn of the commit failed, timed out, or lost its findings. */
  ghost predicate LastIsTrouble(rows: Table, project: nat, pr: string, sha: string) {
    exists k :: IsLast(rows, project, pr, sha, k) && IsTrouble(rows[k])
  }

  predicate IsTrouble(r: Row) {
    r.status == Failed || r.status == TimedOut || r.dbError
  }

  ghost predicate IsLast(rows: Table, project: nat, pr: string, sha: string, k: Key) {
    OnCommit(rows, project, pr, sha, k) && forall j :: OnCommit(rows, project, pr, sha, j) ==> j.turn <= k.turn
  }

  /** `n` is how many turns of the commit have completed. */
  ghost predicate CountsCompleted(rows: Table, project: nat, pr: string, sha: string, n: nat) {
    exists done: set<Key> :: |done| == n
      && forall k :: k in done <==> OnCommit(rows, project, pr, sha, k) && rows[k].status == Completed
  }

  /** Some `n` elements of a set that has at least so many. */
  lemma {:induction false} TakeSome(s: set<nat>, n: nat) returns (some: set<nat>)
    requires n <= |s|
    ensures some <= s && |some| == n
  {
    if n == 0 {
      some := {};
    } else {
      var x :| x in s;
      some := TakeSome(s - {x}, n - 1);
      some := some + {x};
    }
  }

  lemma SpentCounts(rows: Table, project: nat, pr: string)
    ensures Spent(rows, project, pr) <==> |PostedSessions(CodexRows(rows, project, pr), pr)| >= 5
  {
    var posted := PostedSessions(CodexRows(rows, project, pr), pr);
    forall n: nat
      ensures n in posted <==> ShowsPost(rows, project, pr, n)
    {
      if ShowsPost(rows, project, pr, n) {
        var k :| OnBoard(rows, project, pr, k) && rows[k].posted && rows[k].session == Some(n);
        assert k in CodexRows(rows, project, pr);
      }
    }
    if |posted| >= 5 {
      var five := TakeSome(posted, 5);
      assert FiveShown(rows, project, pr, five);
    }
    if five :| FiveShown(rows, project, pr, five) {
      assert five <= posted;
      SubsetSize(five, posted);
    }
  }

  /** The cap gate refuses a review that nothing has approved exactly when five sessions have
      posted on the pull request, and then gives the cap as the reason; after an approval it
      refuses for that reason. */
  lemma RefusedExactly(rows: Table, pr: string)
    ensures ShouldSkipForCap(|PostedSessions(rows, pr)|, false).0 <==> exists five :: FivePosted(rows, pr, five)
    ensures var (skip, capped) := ShouldSkipForCap(|PostedSessions(rows, pr)|, false); capped == skip
    ensures ShouldSkipForCap(|PostedSessions(rows, pr)|, true) == (true, false)
  {
    var posted := PostedSessions(rows, pr);
    assert forall n: nat :: n in posted <==> HasPost(rows, pr, n);
    if |posted| >= 5 {
      var five := TakeSome(posted, 5);
      assert FivePosted(rows, pr, five);
    }
    if five :| FivePosted(rows, pr, five) {
      assert five <= posted;
      SubsetSize(five, posted);
    }
  }

  function CommitRows(rows: Table, project: nat, pr: string, sha: string): Table {
    OfCommit(CodexRows(rows, project, pr), sha)
  }

  lemma CommitRowsExactly(rows: Table, project: nat, pr: string, sha: string, k: Key)
    ensures k in CommitRows(rows, project, pr, sha) <==> OnCommit(rows, project, pr, sha, k)
    ensures k in CommitRows(rows, project, pr, sha) ==> CommitRows(rows, project, pr, sha)[k] == rows[k]
    ensures k in CodexRows(rows, project, pr) <==> OnBoard(rows, project, pr, k)
  {
  }

  /** The badge of a commit that has turns. */
  ghost predicate ShowsTurns(rows: Table, project: nat, pr: string, sha: string, maxTurns: nat, b: CodexStatus) {
    if IsRunning(rows, project, pr, sha) then b == Working
    else if HasPassed(rows, project, pr, sha) then b == Pass
    else if LastIsTrouble(rows, project, pr, sha) then b == FailedBadge
    else if Spent(rows, project, pr) then b == Exhausted
    else b.Progress? && b.maxTurns == maxTurns && CountsCompleted(rows, project, pr, sha, b.turn)
  }

  /** The badge that each state of the table shows. */
  ghost predicate ShowsBadge(rows: Table, project: nat, pr: string, sha: string, maxTurns: nat, b: CodexStatus) {
    if sha == "" || forall k :: !OnBoard(rows, project, pr, k) then b == NotStarted
    else if forall k :: !OnCommit(rows, project, pr, sha, k) then
      b == if Spent(rows, project, pr) then Exhausted else Stale
    else ShowsTurns(rows, project, pr, sha, maxTurns, b)
  }

  /** The last turn of a commit has one row. */
  lemma LastIsOne(rows: Table, project: nat, pr: string, sha: string, last: Key)
    requires IsLatest(CommitRows(rows, project, pr, sha), last)
    ensures LastIsTrouble(rows, project, pr, sha) <==> IsTrouble(rows[last])
  {
    forall k
      ensures k in CommitRows(rows, project, pr, sha) <==> OnCommit(rows, project, pr, sha, k)
    {
      CommitRowsExactly(rows, project, pr, sha, k);
    }
    if k :| IsLast(rows, project, pr, sha, k) && IsTrouble(rows[k]) {
      assert k == last;
    }
  }

  /** What the badge asks about the rows of the commit. */
  lemma CommitTold(rows: Table, project: nat, pr: string, sha: string)
    ensures var current := CommitRows(rows, project, pr, sha);
            && (current == map[] <==> forall k :: !OnCommit(rows, project, pr, sha, k))
            && ((exists k :: k in current && current[k].status == Running) <==> IsRunning(rows, project, pr, sha))
            && ((exists k :: k in current && current[k].status == Completed && current[k].consensus
                   && !current[k].dbError)
                <==> HasPassed(rows, project, pr, sha))
            && CountsCompleted(rows, project, pr, sha, |set k | k in current && current[k].status == Completed|)
  {
    var current := CommitRows(rows, project, pr, sha);
    forall k
      ensures k in current <==> OnCommit(rows, project, pr, sha, k)
      ensures k in current ==> current[k] == rows[k]
    {
      CommitRowsExactly(rows, project, pr, sha, k);
    }
    var done := set k | k in current && current[k].status == Completed;
    assert forall k :: k in done <==> OnCommit(rows, project, pr, sha, k) && rows[k].status == Completed;
  }

  lemma BoardTold(rows: Table, project: nat, pr: string, sha: string)
    ensures CodexRows(rows, project, pr) == map[] <==> forall k :: !OnBoard(rows, project, pr, k)
    ensures CodexRows(rows, project, pr) == map[] ==> CommitRows(rows, project, pr, sha) == map[]
  {
    forall k
      ensures k in CodexRows(rows, project, pr) <==> OnBoard(rows, project, pr, k)
    {
      CommitRowsExactly(rows, project, pr, sha, k);
    }
  }

  lemma TurnsShown(rows: Table, project: nat, pr: string, sha: string, maxTurns: nat)
    requires sha != "" && CommitRows(rows, project, pr, sha) != map[]
    ensures ShowsTurns(rows, project, pr, sha, maxTurns, Badge(rows, project, pr, sha, maxTurns))
  {
    CommitTold(rows, project, pr, sha);
    SpentCounts(rows, project, pr);
    var current := CommitRows(rows, project, pr, sha);
    LastIsOne(rows, project, pr, sha, Latest(current));
    CommitRowsExactly(rows, project, pr, sha, Latest(current));
  }

  /** The badge is the one told. */
  lemma BadgeExactly(rows: Table, project: nat, pr: string, sha: string, maxTurns: nat)
    ensures ShowsBadge(rows, project, pr, sha, maxTurns, Badge(rows, project, pr, sha, maxTurns))
  {
    BoardTold(rows, project, pr, sha);
    CommitTold(rows, project, pr, sha);
    if sha != "" && CommitRows(rows, project, pr, sha) != map[] {
      TurnsShown(rows, project, pr, sha, maxTurns);
    } else {
      SpentCounts(rows, project, pr);
    }
  }

  lemma ProjectCountsLess(rows: Table, project: nat, pr: string)
    ensures |PostedSessions(CodexRows(rows, project, pr), pr)| <= |PostedSessions(rows, pr)|
  {
    var some, all := PostedSessions(CodexRows(rows, project, pr), pr), PostedSessions(rows, pr);
    assert some <= all;
    SubsetSize(some, all);
  }

  /** An EXHAUSTED badge is honest: the cap gate refuses the next review, whatever the
      project, the commit pushed next, or the verdict on it. */
  lemma ExhaustedMeansRefused(rows: Table, project: nat, pr: string, sha: string, maxTurns: nat,
                              approval: bool)
    requires Badge(rows, project, pr, sha, maxTurns) == Exhausted
    ensures ShouldSkipForCap(|PostedSessions(rows, pr)|, approval).0
  {
    ProjectCountsLess(rows, project, pr);
  }

  /** The gate and the badge agree: once the gate refuses a review that nothing has approved,
      the badge of a known commit neither asks for a new push nor shows progress. It is
      EXHAUSTED, unless a turn of the commit is running, one passed, or the last one failed,
      timed out or lost its findings. */
  lemma RefusedMeansExhausted(rows: Table, project: nat, pr: string, sha: string, maxTurns: nat)
    requires sha != ""
    requires ShouldSkipForCap(|PostedSessions(rows, pr)|, false).0
    requires forall k :: k in rows && k.pr == pr && k.stage == Codex ==> rows[k].project == project
    ensures var badge := Badge(rows, project, pr, sha, maxTurns);
            && badge != NotStarted && badge != Stale && !badge.Progress?
            && (badge == Exhausted <==>
                  && !IsRunning(rows, project, pr, sha)
                  && !HasPassed(rows, project, pr, sha)
                  && !LastIsTrouble(rows, project, pr, sha))
  {
    BadgeExactly(rows, project, pr, sha, maxTurns);
    RefusedExactly(rows, pr);
    var five :| FivePosted(rows, pr, five);
    PostsShow(rows, project, pr);
    assert FiveShown(rows, project, pr, five);
    var n :| n in five;
    assert ShowsPost(rows, project, pr, n);
  }

  lemma PostsShow(rows: Table, project: nat, pr: string)
    requires forall k :: k in rows && k.pr == pr && k.stage == Codex ==> rows[k].project == project
    ensures forall n: nat :: HasPost(rows, pr, n) ==> ShowsPost(rows, project, pr, n)
  {
    forall n: nat | HasPost(rows, pr, n)
      ensures ShowsPost(rows, project, pr, n)
    {
      var k :| k in rows && k.pr == pr && k.stage == Codex && rows[k].posted && rows[k].session == Some(n);
      assert OnBoard(rows, project, pr, k);
    }
  }

  /** The badge is PASS exactly when no codex turn of the commit is running and one of them
      completed with consensus and saved its findings. */
  lemma PassExactly(rows: Table, project: nat, pr: string, sha: string, maxTurns: nat)
    requires sha != ""
    ensures Badge(rows, project, pr, sha, maxTurns) == Pass <==>
      (&& (forall k :: k in CodexRows(rows, project, pr) && k.sha == sha ==> rows[k].status != Running)
       && (exists k :: k in CodexRows(rows, project, pr) && k.sha == sha
              && rows[k].status == Completed && rows[k].consensus && !rows[k].dbError))
  {
    var all := CodexRows(rows, project, pr);
    var current := map k | k in all && k.sha == sha :: all[k];
    if exists k :: k in all && k.sha == sha {
      var k :| k in all && k.sha == sha;
      assert k in current;
    }
    forall k | k in all && k.sha == sha
      ensures k in current && current[k] == rows[k]
    {
    }
  }
}
