/** The lifetime cap on the reviews of a pull request (`_should_skip_for_cap` in front of the
    codex loop) over runs that do not overlap: how many reviews it lets through. */
module ReviewCaps {
  import opened Prelude
  import opened TurnTable
  import opened ReviewLoops
  import opened Reviews

  predicate IsCodexRun(f: Firing, pr: string) {
    f.job.pr == pr && f.job.stage == Codex
  }

  /** Every codex run of the pull request passes the cap gate and is numbered after the posted
      sessions the gate counted. */
  ghost predicate Gated(rows: Table, firings: seq<Firing>, pr: string, maxTurns: nat)
    decreases |firings|
  {
    firings != [] ==>
      var f, prior := firings[0], |PostedSessions(rows, pr)|;
      && (IsCodexRun(f, pr) ==>
            f.job.maxTurns == maxTurns && f.job.session == prior + 1 && !ShouldSkipForCap(prior, false).0)
      && Gated(RunOf(rows, f.job, f.env).0, firings[1..], pr, maxTurns)
  }

  /** The codex reviews posted on the pull request, over all its commits. */
  ghost function PrPosts(rows: Table, firings: seq<Firing>, pr: string): nat
    decreases |firings|
  {
    if firings == [] then 0
    else
      var (rows', out) := RunOf(rows, firings[0].job, firings[0].env);
      (if IsCodexRun(firings[0], pr) then |out.posts| else 0) + PrPosts(rows', firings[1..], pr)
  }

  /** What can happen to a turn, as far as the cap is concerned. */
  datatype Kind = Timeout | Failure | LostPost | Post | Crash(at: Cut)

  function KindOf(e: TurnEvent): Kind {
    match e
    case NoReview(timedOut) => if timedOut then Timeout else Failure
    case PostLost(_) => LostPost
    case Posted(_, _) => Post
    case Aborted(_, at) => Crash(at)
  }

  /** Nothing but `kinds` happens in the run. */
  ghost predicate Only(f: Firing, kinds: set<Kind>) {
    forall t: nat :: KindOf(f.env(t)) in kinds
  }

  /** The turn is left failed, for a later webhook to retry. */
  predicate Retriable(kinds: set<Kind>) {
    Failure in kinds || LostPost in kinds
  }

  /** A review is posted and its row stamped, so that its session counts. */
  predicate Stamps(kinds: set<Kind>) {
    Post in kinds || Crash(AfterMark) in kinds
  }

  /** A review is posted, and a crash keeps its row from being stamped. */
  predicate Uncounted(kinds: set<Kind>) {
    Crash(AfterPost) in kinds || Crash(AfterComplete) in kinds
  }

  /** Every posted review is counted under the session of the run that posts it. */
  predicate Counted(kinds: set<Kind>) {
    !Uncounted(kinds) && !(Retriable(kinds) && Stamps(kinds))
  }

  // ---- Runs without retries -------------------------------------------------------

  const SMOOTH: set<Kind> := {Timeout, Post, Crash(BeforePost), Crash(AfterMark)}

  ghost predicate NothingFailed(rows: Table, pr: string) {
    forall k :: k in rows && k.pr == pr && k.stage == Codex ==> rows[k].status != Failed
  }

  /** The codex rows of the pull request are the same in both tables. */
  ghost predicate SameCodex(a: Table, b: Table, pr: string) {
    forall k: Key :: k.pr == pr && k.stage == Codex ==> (k in a <==> k in b) && (k in a ==> a[k] == b[k])
  }

  lemma SameCodexReads(a: Table, b: Table, pr: string)
    requires SameCodex(a, b, pr)
    ensures PostedSessions(a, pr) == PostedSessions(b, pr)
    ensures NothingFailed(a, pr) ==> NothingFailed(b, pr)
  {
    assert forall k :: CountsForCap(a, pr, k) ==> CountsForCap(b, pr, k) && a[k] == b[k];
    assert forall k :: CountsForCap(b, pr, k) ==> CountsForCap(a, pr, k) && a[k] == b[k];
  }

  lemma OtherRunLeavesCodex(rows: Table, f: Firing, pr: string) returns (rows': Table)
    requires !IsCodexRun(f, pr)
    ensures rows' == RunOf(rows, f.job, f.env).0
    ensures PostedSessions(rows', pr) == PostedSessions(rows, pr) &&
              (NothingFailed(rows, pr) ==> NothingFailed(rows', pr))
  {
    rows' := RunOf(rows, f.job, f.env).0;
    forall k: Key | k.pr == pr && k.stage == Codex
      ensures (k in rows <==> k in rows') && (k in rows ==> rows[k] == rows'[k])
    {
      LoopLeavesOthers(Beginning(rows), f.job, NextTurn(rows, f.job.pr, f.job.sha, f.job.stage), f.env, k);
    }
    SameCodexReads(rows, rows', pr);
  }

  lemma SessionAdded(rows: Table, rows': Table, pr: string, k: Key, r: Row)
    requires rows' == rows[k := r] && k !in rows && k.pr == pr && k.stage == Codex && r.session.Some?
    ensures PostedSessions(rows', pr) == PostedSessions(rows, pr) + if r.posted then {r.session.value} else {}
  {
    assert forall j :: CountsForCap(rows, pr, j) ==> CountsForCap(rows', pr, j) && rows'[j] == rows[j];
    assert forall j :: CountsForCap(rows', pr, j) ==> j == k || CountsForCap(rows, pr, j);
    assert r.posted ==> CountsForCap(rows', pr, k);
  }

  /** From `s` to `end` nothing fails, at most `most` reviews are posted, and the session of
      the run counts as posted if there was one. */
  ghost predicate Grows(s: LoopState, end: LoopState, job: Job, most: nat) {
    && NothingFailed(end.rows, job.pr)
    && |s.out.posts| <= |end.out.posts| <= |s.out.posts| + most
    && PostedSessions(end.rows, job.pr)
       == PostedSessions(s.rows, job.pr) + if |end.out.posts| > |s.out.posts| then {job.session} else {}
  }

  lemma GrowsOn(s: LoopState, p: LoopState, end: LoopState, job: Job, one: nat, most: nat)
    requires Grows(s, p, job, one) && Grows(p, end, job, most)
    ensures Grows(s, end, job, one + most)
  {
  }

  /** A turn that leaves nothing to retry inserts a row labelled with the session of the run,
      and stamps it if it posts. */
  lemma InsertedRow(s: LoopState, job: Job, turn: nat, e: TurnEvent) returns (p: LoopState, r: Row)
    requires TurnKey(job, turn) !in s.rows && KindOf(e) in SMOOTH
    ensures p == Play(s, job, turn, e) && p.rows == s.rows[TurnKey(job, turn) := r]
    ensures r.session == Some(job.session) && r.status != Failed
    ensures |s.out.posts| <= |p.out.posts| <= |s.out.posts| + 1 && (r.posted <==> |p.out.posts| > |s.out.posts|)
  {
    p := Play(s, job, turn, e);
    r := p.rows[TurnKey(job, turn)];
  }

  lemma SmoothTurn(s: LoopState, job: Job, turn: nat, env: nat -> TurnEvent) returns (p: LoopState)
    requires Enters(s, job, turn) && job.stage == Codex && NothingFailed(s.rows, job.pr)
    requires Only(Firing(job, env), SMOOTH)
    ensures PlayOn(s, job, turn, env) == LoopFrom(p, job, turn + 1, env)
    ensures Grows(s, p, job, 1)
  {
    var f := Firing(job, env);
    assert KindOf(f.env(turn)) in SMOOTH;
    var r: Row;
    p, r := InsertedRow(s, job, turn, env(turn));
    SessionAdded(s.rows, p.rows, job.pr, TurnKey(job, turn), r);
  }

  lemma {:induction false} SmoothLoop(s: LoopState, job: Job, turn: nat, env: nat -> TurnEvent)
    requires job.stage == Codex && NothingFailed(s.rows, job.pr) && turn <= job.maxTurns + 1
    requires Only(Firing(job, env), SMOOTH)
    ensures Grows(s, LoopFrom(s, job, turn, env), job, job.maxTurns + 1 - turn)
    decreases job.maxTurns + 1 - turn
  {
    if Enters(s, job, turn) {
      var p := SmoothTurn(s, job, turn, env);
      SmoothLoop(p, job, turn + 1, env);
      GrowsOn(s, p, LoopFrom(p, job, turn + 1, env), job, 1, job.maxTurns - turn);
    }
  }

  lemma FailedHasRow(rows: Table, pr: string, sha: string, stage: Stage, t: nat)
    ensures var k := Key(pr, sha, stage, t);
            t in FailedTurns(rows, pr, sha, stage) ==> k in rows && rows[k].status == Failed
  {
  }

  lemma SmoothStart(rows: Table, job: Job)
    requires job.stage == Codex && NothingFailed(rows, job.pr)
    ensures NextTurn(rows, job.pr, job.sha, job.stage) >= 1
  {
    forall t: nat
      ensures t !in FailedTurns(rows, job.pr, job.sha, job.stage)
    {
      FailedHasRow(rows, job.pr, job.sha, job.stage, t);
    }
  }

  lemma SmoothRun(rows: Table, f: Firing) returns (rows': Table, posts: nat)
    requires f.job.stage == Codex && NothingFailed(rows, f.job.pr) && Only(f, SMOOTH)
    ensures rows' == RunOf(rows, f.job, f.env).0 && posts == |RunOf(rows, f.job, f.env).1.posts| <= f.job.maxTurns
    ensures NothingFailed(rows', f.job.pr)
    ensures PostedSessions(rows', f.job.pr) ==
              PostedSessions(rows, f.job.pr) + if posts > 0 then {f.job.session} else {}
  {
    var job := f.job;
    SmoothStart(rows, job);
    if ExitOf(rows, job).None? {
      SmoothLoop(Beginning(rows), job, NextTurn(rows, job.pr, job.sha, job.stage), f.env);
    } else {
      assert PostedSessions(rows, job.pr) + {} == PostedSessions(rows, job.pr);
    }
    rows', posts := RunOf(rows, f.job, f.env).0, |RunOf(rows, f.job, f.env).1.posts|;
  }

  /** The reviews that can still be posted after `n` posted sessions. */
  function Allowance(n: nat, maxTurns: nat): nat
    decreases MAX_REVIEWS_PER_PR - n
  {
    if n >= MAX_REVIEWS_PER_PR then 0 else maxTurns + Allowance(n + 1, maxTurns)
  }

  lemma NextSession(n: nat)
    ensures UpTo(n) + {n + 1} == UpTo(n + 1) && |UpTo(n)| == n
  {
  }

  /** What one run leaves of the allowance. */
  lemma SmoothStep(rows: Table, f: Firing, pr: string, maxTurns: nat, n: nat)
    returns (rows': Table, posts: nat, n': nat)
    requires NothingFailed(rows, pr) && PostedSessions(rows, pr) == UpTo(n) && n <= MAX_REVIEWS_PER_PR
    requires IsCodexRun(f, pr) ==> Only(f, SMOOTH) && Gated(rows, [f], pr, maxTurns)
    ensures rows' == RunOf(rows, f.job, f.env).0
    ensures posts == if IsCodexRun(f, pr) then |RunOf(rows, f.job, f.env).1.posts| else 0
    ensures NothingFailed(rows', pr) && PostedSessions(rows', pr) == UpTo(n') && n' <= MAX_REVIEWS_PER_PR
    ensures posts <= maxTurns && n' == (if posts == 0 then n else n + 1)
  {
    NextSession(n);
    if IsCodexRun(f, pr) {
      rows', posts := SmoothRun(rows, f);
    } else {
      rows' := OtherRunLeavesCodex(rows, f, pr);
      posts := 0;
    }
    n' := if posts == 0 then n else n + 1;
  }

  lemma GatedFirst(rows: Table, firings: seq<Firing>, pr: string, maxTurns: nat)
    requires Gated(rows, firings, pr, maxTurns) && firings != []
    ensures Gated(rows, [firings[0]], pr, maxTurns)
    ensures Gated(RunOf(rows, firings[0].job, firings[0].env).0, firings[1..], pr, maxTurns)
  {
    assert [firings[0]][1..] == [];
  }

  /** Each session number that posts is used by one run, so the sessions that may still post
      bound the reviews. */
  lemma {:induction false} SmoothRunsKeepAllowance(rows: Table, firings: seq<Firing>, pr: string,
                                                   maxTurns: nat, n: nat)
    requires NothingFailed(rows, pr) && PostedSessions(rows, pr) == UpTo(n) && n <= MAX_REVIEWS_PER_PR
    requires Gated(rows, firings, pr, maxTurns)
    requires forall f :: f in firings && IsCodexRun(f, pr) ==> Only(f, SMOOTH)
    ensures PrPosts(rows, firings, pr) <= Allowance(n, maxTurns)
    decreases |firings|
  {
    if firings != [] {
      assert firings[0] in firings;
      GatedFirst(rows, firings, pr, maxTurns);
      var rows', posts, n' := SmoothStep(rows, firings[0], pr, maxTurns, n);
      SmoothRunsKeepAllowance(rows', firings[1..], pr, maxTurns, n');
    }
  }

  lemma FullAllowance(maxTurns: nat)
    ensures Allowance(0, maxTurns) == MAX_REVIEWS_PER_PR * maxTurns
  {
    assert Allowance(3, maxTurns) == maxTurns + maxTurns;
    assert Allowance(1, maxTurns) == maxTurns + maxTurns + Allowance(3, maxTurns);
  }

  // ---- Runs without posts ---------------------------------------------------------

  const SILENT: set<Kind> := {Timeout, Failure, LostPost, Crash(BeforePost)}

  lemma {:induction false} SilentLoop(s: LoopState, job: Job, turn: nat, env: nat -> TurnEvent)
    requires Only(Firing(job, env), SILENT)
    ensures LoopFrom(s, job, turn, env).out.posts == s.out.posts
    decreases job.maxTurns + 1 - turn
  {
    if Enters(s, job, turn) {
      var f := Firing(job, env);
      assert KindOf(f.env(turn)) in SILENT;
      SilentLoop(Play(s, job, turn, env(turn)), job, turn + 1, env);
    }
  }

  lemma {:induction false} SilentRunsPostNothing(rows: Table, firings: seq<Firing>, pr: string)
    requires forall f :: f in firings && IsCodexRun(f, pr) ==> Only(f, SILENT)
    ensures PrPosts(rows, firings, pr) == 0
    decreases |firings|
  {
    if firings != [] {
      var f := firings[0];
      assert f in firings;
      if IsCodexRun(f, pr) {
        SilentLoop(Beginning(rows), f.job, NextTurn(rows, f.job.pr, f.job.sha, f.job.stage), f.env);
      }
      SilentRunsPostNothing(RunOf(rows, f.job, f.env).0, firings[1..], pr);
    }
  }

  lemma FewerKinds(f: Firing, kinds: set<Kind>, more: set<Kind>)
    requires Only(f, kinds) && kinds <= more
    ensures Only(f, more)
  {
    forall t: nat
      ensures KindOf(f.env(t)) in more
    {
      assert KindOf(f.env(t)) in kinds;
    }
  }

  lemma CountedKinds(kinds: set<Kind>)
    requires Counted(kinds)
    ensures kinds <= SMOOTH || kinds <= SILENT
  {
    forall k | k in kinds
      ensures !Retriable(kinds) ==> k in SMOOTH
      ensures !Stamps(kinds) ==> k in SILENT
    {
      if k.Crash? {
        match k.at
        case BeforePost =>
        case AfterPost =>
        case AfterComplete =>
        case AfterMark =>
      }
    }
  }

  /** When every review is counted where it is posted, the cap bounds the reviews of a pull
      request. */
  lemma CapBoundsReviews(firings: seq<Firing>, pr: string, maxTurns: nat, kinds: set<Kind>)
    requires Gated(map[], firings, pr, maxTurns) && Counted(kinds)
    requires forall f :: f in firings && IsCodexRun(f, pr) ==> Only(f, kinds)
    ensures PrPosts(map[], firings, pr) <= MAX_REVIEWS_PER_PR * maxTurns
  {
    CountedKinds(kinds);
    var more := if kinds <= SMOOTH then SMOOTH else SILENT;
    forall f | f in firings && IsCodexRun(f, pr)
      ensures Only(f, more)
    {
      FewerKinds(f, kinds, more);
    }
    if more == SMOOTH {
      assert PostedSessions(map[], pr) == UpTo(0);
      SmoothRunsKeepAllowance(map[], firings, pr, maxTurns, 0);
      FullAllowance(maxTurns);
    } else {
      SilentRunsPostNothing(map[], firings, pr);
    }
  }

  // ---- One run more ---------------------------------------------------------------

  function Sha(i: nat): (s: string)
    ensures |s| == i + 1
  {
    seq(i + 1, _ => 'c')
  }

  function FirstTurn(pr: string, i: nat): Key {
    Key(pr, Sha(i), Codex, 1)
  }

  const AGREED := Review(Comment, true, [])

  /** The same happens on every turn. */
  function Always(e: TurnEvent): nat -> TurnEvent {
    (t: nat) => e
  }

  /** A codex run on commit `i` whose turns all meet `e`. */
  function RunOn(pr: string, i: nat, session: nat, maxTurns: nat, e: TurnEvent): Firing {
    Firing(Job(0, pr, Sha(i), Codex, session, maxTurns), Always(e))
  }

  /** `f` leads from `rows` to `rows'` and posts `posts` reviews, whatever runs follow. */
  ghost predicate Adds(rows: Table, f: Firing, rows': Table, pr: string, maxTurns: nat, posts: nat) {
    forall rest {:trigger Gated(rows', rest, pr, maxTurns)} :: Gated(rows', rest, pr, maxTurns) ==>
      && Gated(rows, [f] + rest, pr, maxTurns)
      && PrPosts(rows, [f] + rest, pr) == posts + PrPosts(rows', rest, pr)
  }

  lemma RunAdds(rows: Table, f: Firing, rows': Table, pr: string, maxTurns: nat, posts: nat)
    requires IsCodexRun(f, pr) && f.job.maxTurns == maxTurns
    requires |PostedSessions(rows, pr)| < MAX_REVIEWS_PER_PR && f.job.session == |PostedSessions(rows, pr)| + 1
    requires RunOf(rows, f.job, f.env).0 == rows' && |RunOf(rows, f.job, f.env).1.posts| == posts
    ensures Adds(rows, f, rows', pr, maxTurns, posts)
  {
    forall rest | Gated(rows', rest, pr, maxTurns)
      ensures Gated(rows, [f] + rest, pr, maxTurns)
      ensures PrPosts(rows, [f] + rest, pr) == posts + PrPosts(rows', rest, pr)
    {
      assert ([f] + rest)[0] == f && ([f] + rest)[1..] == rest;
    }
  }

  lemma NewCommit(rows: Table, pr: string, n: nat, job: Job)
    requires job.pr == pr && job.sha == Sha(n) && job.stage == Codex && job.maxTurns >= 1
    requires forall k :: k in rows && k.pr == pr && k.stage == Codex ==> |k.sha| <= n
    ensures NextTurn(rows, pr, Sha(n), Codex) == 1 && ExitOf(rows, job) == None
  {
    assert Turns(rows, pr, Sha(n), Codex) == {} && ConsensusTurns(rows, pr, Sha(n), Codex) == {};
  }

  // ---- Reviews without a stamp ----------------------------------------------------

  /** No review of the first `n` commits counts, though each was posted. */
  ghost predicate Unstamped(rows: Table, pr: string, n: nat) {
    forall k :: k in rows && k.pr == pr && k.stage == Codex ==> |k.sha| <= n && !rows[k].posted
  }

  lemma NothingCounts(rows: Table, pr: string, n: nat)
    requires Unstamped(rows, pr, n)
    ensures PostedSessions(rows, pr) == {}
  {
    assert forall k :: !CountsForCap(rows, pr, k);
  }

  lemma CrashStep(rows: Table, pr: string, n: nat, maxTurns: nat, at: Cut) returns (f: Firing, rows': Table)
    requires Unstamped(rows, pr, n) && maxTurns >= 1 && (at == AfterPost || at == AfterComplete)
    ensures Unstamped(rows', pr, n + 1) && Adds(rows, f, rows', pr, maxTurns, 1)
    ensures f.env == Always(Aborted(AGREED, at))
  {
    var e := Aborted(AGREED, at);
    f := RunOn(pr, n, 1, maxTurns, e);
    NothingCounts(rows, pr, n);
    NewCommit(rows, pr, n, f.job);
    var s := Beginning(rows);
    var p := Play(s, f.job, 1, e);
    assert LoopFrom(s, f.job, 1, f.env) == LoopFrom(p, f.job, 2, f.env) == p;
    rows' := p.rows;
    RunAdds(rows, f, rows', pr, maxTurns, 1);
  }

  /** Runs that crash between the post and the stamp leave no trace for the gate: each new
      commit is reviewed as session 1. */
  lemma {:induction false} CrashesEscapeTheCap(rows: Table, pr: string, i: nat, n: nat, maxTurns: nat, at: Cut)
    returns (firings: seq<Firing>)
    requires Unstamped(rows, pr, i) && i <= n && maxTurns >= 1 && (at == AfterPost || at == AfterComplete)
    ensures Gated(rows, firings, pr, maxTurns) && PrPosts(rows, firings, pr) == n - i
    ensures forall f :: f in firings ==> f.env == Always(Aborted(AGREED, at))
    decreases n - i
  {
    if i == n {
      firings := [];
    } else {
      var f, rows' := CrashStep(rows, pr, i, maxTurns, at);
      var rest := CrashesEscapeTheCap(rows', pr, i + 1, n, maxTurns, at);
      firings := [f] + rest;
    }
  }

  // ---- Reviews under an old session -----------------------------------------------

  /** The first `n` commits have been tried in session 1. The first `done` of them have been
      retried and have posted; turn 1 of each of the others waits to be. */
  ghost predicate Tried(rows: Table, pr: string, n: nat, done: nat) {
    && (forall k :: k in rows && k.pr == pr && k.stage == Codex ==>
          && 1 <= |k.sha| <= n && k.turn >= 1 && rows[k].session == Some(1)
          && (|k.sha| > done ==> !rows[k].posted && !rows[k].consensus))
    && (forall i: nat :: done <= i < n ==> FirstTurn(pr, i) in rows && rows[FirstTurn(pr, i)].status == Failed)
    && (done > 0 ==> FirstTurn(pr, 0) in rows && rows[FirstTurn(pr, 0)].posted)
  }

  lemma CountedSessions(rows: Table, pr: string, n: nat, done: nat)
    requires Tried(rows, pr, n, done)
    ensures PostedSessions(rows, pr) == if done == 0 then {} else {1}
  {
    if done == 0 {
      assert forall k :: !CountsForCap(rows, pr, k);
    } else {
      assert CountsForCap(rows, pr, FirstTurn(pr, 0));
    }
  }

  /** Every row of the job's stage waits unposted under session 1. */
  ghost predicate AllWaiting(rows: Table, job: Job) {
    forall k :: k in rows && k == TurnKey(job, k.turn) ==>
      k.turn >= 1 && rows[k].session == Some(1) && !rows[k].posted && !rows[k].consensus
  }

  /** The turn fails, as a review that does not come or a post that is lost. */
  predicate Fails(e: TurnEvent) {
    KindOf(e) == Failure || KindOf(e) == LostPost
  }

  lemma FailedTurn(s: LoopState, job: Job, turn: nat, e: TurnEvent) returns (p: LoopState)
    requires AllWaiting(s.rows, job) && Fails(e) && turn >= 1 && job.session == 1
    ensures p == Play(s, job, turn, e) && AllWaiting(p.rows, job) && p.out.posts == s.out.posts
    ensures TurnKey(job, turn) in p.rows && p.rows[TurnKey(job, turn)].status == Failed
  {
    p := Play(s, job, turn, e);
  }

  lemma {:induction false} FailedLoop(s: LoopState, job: Job, turn: nat, e: TurnEvent)
    requires AllWaiting(s.rows, job) && Fails(e) && turn >= 1 && job.session == 1
    ensures var end := LoopFrom(s, job, turn, Always(e));
            AllWaiting(end.rows, job) && end.out.posts == s.out.posts
    decreases job.maxTurns + 1 - turn
  {
    if Enters(s, job, turn) {
      var p := FailedTurn(s, job, turn, e);
      FailedLoop(p, job, turn + 1, e);
    }
  }

  /** The first try of a new commit fails, whatever the turn budget. */
  lemma FirstTry(rows: Table, pr: string, n: nat, maxTurns: nat, e: TurnEvent) returns (f: Firing, rows': Table)
    requires Tried(rows, pr, n, 0) && maxTurns >= 1 && Fails(e)
    ensures f == RunOn(pr, n, 1, maxTurns, e) && RunOf(rows, f.job, f.env).0 == rows'
    ensures RunOf(rows, f.job, f.env).1.posts == [] && AllWaiting(rows', f.job)
    ensures FirstTurn(pr, n) in rows' && rows'[FirstTurn(pr, n)].status == Failed
    ensures forall k: Key :: k != TurnKey(f.job, k.turn) ==>
              (k in rows' <==> k in rows) && (k in rows ==> rows'[k] == rows[k])
  {
    f := RunOn(pr, n, 1, maxTurns, e);
    NewCommit(rows, pr, n, f.job);
    var s := Beginning(rows);
    var p := FailedTurn(s, f.job, 1, e);
    assert LoopFrom(s, f.job, 1, f.env) == LoopFrom(p, f.job, 2, f.env);
    FailedLoop(p, f.job, 2, e);
    LoopLeavesOthers(p, f.job, 2, f.env, FirstTurn(pr, n));
    rows' := RunOf(rows, f.job, f.env).0;
    forall k: Key | k != TurnKey(f.job, k.turn)
      ensures (k in rows' <==> k in rows) && (k in rows ==> rows'[k] == rows[k])
    {
      LoopLeavesOthers(s, f.job, 1, f.env, k);
    }
  }

  lemma FirstTryTries(rows: Table, rows': Table, pr: string, n: nat, job: Job)
    requires Tried(rows, pr, n, 0) && job.pr == pr && job.sha == Sha(n) && job.stage == Codex && AllWaiting(rows', job)
    requires FirstTurn(pr, n) in rows' && rows'[FirstTurn(pr, n)].status == Failed
    requires forall k: Key :: k != TurnKey(job, k.turn) ==>
               (k in rows' <==> k in rows) && (k in rows ==> rows'[k] == rows[k])
    ensures Tried(rows', pr, n + 1, 0)
  {
    forall i: nat | i < n + 1
      ensures FirstTurn(pr, i) in rows' && rows'[FirstTurn(pr, i)].status == Failed
    {
      assert |Sha(i)| == i + 1 && |Sha(n)| == n + 1;
      assert i < n ==> FirstTurn(pr, i) in rows && FirstTurn(pr, i) != TurnKey(job, 1);
    }
  }

  lemma FirstStep(rows: Table, pr: string, n: nat, maxTurns: nat, e: TurnEvent) returns (f: Firing, rows': Table)
    requires Tried(rows, pr, n, 0) && maxTurns >= 1 && Fails(e)
    ensures Tried(rows', pr, n + 1, 0) && Adds(rows, f, rows', pr, maxTurns, 0) && f.env == Always(e)
  {
    CountedSessions(rows, pr, n, 0);
    f, rows' := FirstTry(rows, pr, n, maxTurns, e);
    FirstTryTries(rows, rows', pr, n, f.job);
    RunAdds(rows, f, rows', pr, maxTurns, 0);
  }

  lemma RetryReads(rows: Table, pr: string, i: nat, n: nat, job: Job)
    requires Tried(rows, pr, n, i) && i < n
    requires job.pr == pr && job.sha == Sha(i) && job.stage == Codex && job.maxTurns >= 1
    ensures NextTurn(rows, pr, Sha(i), Codex) == 1 && ExitOf(rows, job) == None
  {
    assert FirstTurn(pr, i) in rows && rows[FirstTurn(pr, i)].status == Failed;
    assert 1 in Turns(rows, pr, Sha(i), Codex) && 1 in FailedTurns(rows, pr, Sha(i), Codex);
    forall k | k in rows && k.pr == pr && k.sha == Sha(i) && k.stage == Codex
      ensures k.turn >= 1 && !rows[k].posted && !rows[k].consensus && rows[k].session.Some?
    {
      assert |k.sha| == i + 1;
    }
  }

  /** The retry posts: with a stamp, or with a crash right after it. */
  predicate Succeeds(e: TurnEvent) {
    e == Posted(AGREED, Saved) || e == Aborted(AGREED, AfterMark)
  }

  lemma Retry(rows: Table, pr: string, i: nat, n: nat, job: Job, e: TurnEvent) returns (rows': Table)
    requires Tried(rows, pr, n, i) && i < n && Succeeds(e)
    requires job.pr == pr && job.sha == Sha(i) && job.stage == Codex && job.maxTurns >= 1
    ensures RunOf(rows, job, Always(e)).0 == rows' && RunOf(rows, job, Always(e)).1.posts == [1]
    ensures FirstTurn(pr, i) in rows' && rows' == rows[FirstTurn(pr, i) := rows'[FirstTurn(pr, i)]]
    ensures rows'[FirstTurn(pr, i)].posted && rows'[FirstTurn(pr, i)].session == Some(1)
  {
    RetryReads(rows, pr, i, n, job);
    assert FirstTurn(pr, i) in rows && rows[FirstTurn(pr, i)].session == Some(1);
    var s := Beginning(rows);
    var p := Play(s, job, 1, e);
    assert ReachedConsensus(AGREED, {}) && !p.goesOn;
    assert LoopFrom(s, job, 1, Always(e)) == LoopFrom(p, job, 2, Always(e)) == p;
    rows' := p.rows;
  }

  lemma RetryTries(rows: Table, rows': Table, pr: string, i: nat, n: nat)
    requires Tried(rows, pr, n, i) && i < n
    requires FirstTurn(pr, i) in rows' && rows' == rows[FirstTurn(pr, i) := rows'[FirstTurn(pr, i)]]
    requires rows'[FirstTurn(pr, i)].posted && rows'[FirstTurn(pr, i)].session == Some(1)
    ensures Tried(rows', pr, n, i + 1)
  {
    assert |Sha(i)| == i + 1;
    forall j: nat | i + 1 <= j < n
      ensures FirstTurn(pr, j) in rows' && rows'[FirstTurn(pr, j)].status == Failed
    {
      assert |Sha(j)| == j + 1;
      assert FirstTurn(pr, j) in rows && FirstTurn(pr, j) != FirstTurn(pr, i);
    }
  }

  lemma RetryStep(rows: Table, pr: string, i: nat, n: nat, maxTurns: nat, e: TurnEvent)
    returns (f: Firing, rows': Table)
    requires Tried(rows, pr, n, i) && i < n && maxTurns >= 1 && Succeeds(e)
    ensures Tried(rows', pr, n, i + 1) && Adds(rows, f, rows', pr, maxTurns, 1) && f.env == Always(e)
  {
    CountedSessions(rows, pr, n, i);
    f := RunOn(pr, i, if i == 0 then 1 else 2, maxTurns, e);
    rows' := Retry(rows, pr, i, n, f.job, e);
    RetryTries(rows, rows', pr, i, n);
    RunAdds(rows, f, rows', pr, maxTurns, 1);
  }

  /** The retries of the commits from `i` on. */
  lemma {:induction false} RetriesPost(rows: Table, pr: string, i: nat, n: nat, maxTurns: nat, e: TurnEvent)
    returns (firings: seq<Firing>)
    requires Tried(rows, pr, n, i) && i <= n && maxTurns >= 1 && Succeeds(e)
    ensures Gated(rows, firings, pr, maxTurns) && PrPosts(rows, firings, pr) == n - i
    ensures forall f :: f in firings ==> f.env == Always(e)
    decreases n - i
  {
    if i == n {
      firings := [];
    } else {
      var f, rows' := RetryStep(rows, pr, i, n, maxTurns, e);
      var rest := RetriesPost(rows', pr, i + 1, n, maxTurns, e);
      firings := [f] + rest;
    }
  }

  /** A retried turn keeps its old session number, so its review is not counted: after first
      tries of `n` commits that all fail, `n` retries post, all of them as session 1. */
  lemma {:induction false} RetriesEscapeTheCap(rows: Table, pr: string, i: nat, n: nat, maxTurns: nat,
                                               first: TurnEvent, second: TurnEvent)
    returns (firings: seq<Firing>)
    requires Tried(rows, pr, i, 0) && i <= n && maxTurns >= 1 && Fails(first) && Succeeds(second)
    ensures Gated(rows, firings, pr, maxTurns) && PrPosts(rows, firings, pr) == n
    ensures forall f :: f in firings ==> f.env == Always(first) || f.env == Always(second)
    decreases n - i
  {
    if i == n {
      firings := RetriesPost(rows, pr, 0, n, maxTurns, second);
    } else {
      var f, rows' := FirstStep(rows, pr, i, maxTurns, first);
      var rest := RetriesEscapeTheCap(rows', pr, i + 1, n, maxTurns, first, second);
      firings := [f] + rest;
    }
  }

  // ---- The cap, exactly -----------------------------------------------------------

  /** The cap bounds the reviews over all gated runs in which only `kinds` happen. */
  ghost predicate KeepsCap(pr: string, maxTurns: nat, kinds: set<Kind>) {
    forall firings ::
      Gated(map[], firings, pr, maxTurns)
      && (forall f :: f in firings && IsCodexRun(f, pr) ==> Only(f, kinds)) ==>
        PrPosts(map[], firings, pr) <= MAX_REVIEWS_PER_PR * maxTurns
  }

  /** Runs of `kinds` that post any number of reviews on one pull request. */
  lemma EscapingRuns(pr: string, n: nat, maxTurns: nat, kinds: set<Kind>) returns (firings: seq<Firing>)
    requires maxTurns >= 1 && !Counted(kinds)
    ensures Gated(map[], firings, pr, maxTurns) && PrPosts(map[], firings, pr) == n
    ensures forall f :: f in firings ==> Only(f, kinds)
  {
    if Uncounted(kinds) {
      var at := if Crash(AfterPost) in kinds then AfterPost else AfterComplete;
      firings := CrashesEscapeTheCap(map[], pr, 0, n, maxTurns, at);
    } else {
      var first := if Failure in kinds then NoReview(false) else PostLost(AGREED);
      var second := if Post in kinds then Posted(AGREED, Saved) else Aborted(AGREED, AfterMark);
      firings := RetriesEscapeTheCap(map[], pr, 0, n, maxTurns, first, second);
    }
  }

  /** For every set of things that may happen to a turn: over runs that do not overlap, the
      cap times the turn budget bounds the reviews of a pull request if and only if no crash
      comes between a post and its stamp, and no failure is left to retry where reviews are
      stamped. */
  lemma CapExactly(pr: string, maxTurns: nat, kinds: set<Kind>)
    requires maxTurns >= 1
    ensures KeepsCap(pr, maxTurns, kinds) <==> Counted(kinds)
  {
    if Counted(kinds) {
      forall firings | && Gated(map[], firings, pr, maxTurns)
                       && forall f :: f in firings && IsCodexRun(f, pr) ==> Only(f, kinds)
        ensures PrPosts(map[], firings, pr) <= MAX_REVIEWS_PER_PR * maxTurns
      {
        CapBoundsReviews(firings, pr, maxTurns, kinds);
      }
    } else {
      var firings := EscapingRuns(pr, MAX_REVIEWS_PER_PR * maxTurns + 1, maxTurns, kinds);
    }
  }
}
