/** What one run of the review loop does, told turn by turn from the events alone: which turns
    it plays, what it writes for each, and how it ends. The loop (`ReviewLoops`) is proved to
    do exactly this. */
module RunTraces {
  import opened Prelude
  import opened TurnTable
  import opened Reviews
  import opened ReviewLoops

  type Env = nat -> TurnEvent

  /** Finding `f` was posted by an earlier turn of the run. */
  ghost predicate Raised(env: Env, start: nat, t: nat, f: Finding) {
    exists u: nat, g :: start <= u < t && env(u).Posted? && g in env(u).review.findings && SameFinding(f, g)
  }

  /** The review of turn `t` is an all-clear, an approval without critical or high findings,
      or lists only what earlier turns of the run have posted. */
  ghost predicate Agrees(env: Env, start: nat, t: nat)
    requires !env(t).NoReview?
  {
    var review := env(t).review;
    || review.noFurtherConcerns
    || (review.verdict == Approve && forall f :: f in review.findings ==> f.severity in {Medium, Low, Info})
    || forall f :: f in review.findings ==> Raised(env, start, t, f)
  }

  /** The run goes on after turn `t`: it had no review, or posted one that did not agree. */
  ghost predicate GoesOn(env: Env, start: nat, t: nat) {
    env(t).NoReview? || (env(t).Posted? && !Agrees(env, start, t))
  }

  predicate Free(rows: Table, job: Job, t: nat) {
    TurnKey(job, t) !in rows || rows[TurnKey(job, t)].status == Failed
  }

  /** The run plays turn `t`: it and every turn before it could be won, and the run went on
      after each of those. */
  ghost predicate Plays(rows: Table, job: Job, env: Env, start: nat, t: nat) {
    && start <= t <= job.maxTurns
    && (forall u: nat :: start <= u <= t ==> Free(rows, job, u))
    && (forall u: nat :: start <= u < t ==> GoesOn(env, start, u))
  }

  /** The row of a played turn: what was there keeps its project, session and marks. */
  function Written(before: Option<Row>, job: Job, event: TurnEvent, agrees: bool): Row {
    var was := if before.Some? then before.value
               else Row(job.project, Running, None, false, Some(job.session), false, false, false);
    match event
    case NoReview(timedOut) =>
      was.(status := if timedOut then TimedOut else Failed, findingCount := None, consensus := false)
    case PostLost(review) => was.(status := Failed, findingCount := Some(|review.findings|), consensus := false)
    case Posted(review, saving) =>
      was.(status := Completed, findingCount := Some(|review.findings|), consensus := agrees, posted := true,
           recorded := was.recorded || saving == Saved, dbError := was.dbError || saving == Stamped)
    case Aborted(review, at) =>
      if at == BeforePost || at == AfterPost then was.(status := Running, findingCount := None, consensus := false)
      else was.(status := Completed, findingCount := Some(|review.findings|), consensus := agrees,
                posted := was.posted || at == AfterMark)
  }

  function Before(rows: Table, k: Key): Option<Row> {
    if k in rows then Some(rows[k]) else None
  }

  ghost predicate AgreesAt(env: Env, start: nat, t: nat) {
    !env(t).NoReview? && Agrees(env, start, t)
  }

  /** The row of `k` afterwards, when the played turns are those for which `played` holds. */
  ghost predicate RowTold(rows: Table, rows': Table, job: Job, env: Env, start: nat, played: bool, k: Key) {
    if k == TurnKey(job, k.turn) && played then
      k in rows' && rows'[k] == Written(Before(rows, k), job, env(k.turn), AgreesAt(env, start, k.turn))
    else Before(rows', k) == Before(rows, k)
  }

  /** An event that a later webhook may try again. */
  predicate MayRetry(event: TurnEvent) {
    event.PostLost? || event == NoReview(false)
  }

  predicate PostsOn(event: TurnEvent) {
    event.Posted? || (event.Aborted? && event.at != BeforePost)
  }

  predicate InRange(start: nat, turn: nat, t: nat) {
    start <= t < turn
  }

  /** The outcome of the turns from `start` up to `turn`. */
  ghost predicate OutcomeTold(out: Outcome, env: Env, start: nat, turn: nat) {
    && (out.consensus <==> exists t: nat :: InRange(start, turn, t) && env(t).Posted? && Agrees(env, start, t))
    && (out.crashed <==> exists t: nat :: InRange(start, turn, t) && env(t).Aborted?)
    && (Retryable(out.errors) <==> exists t: nat :: InRange(start, turn, t) && MayRetry(env(t)))
    && (forall t: nat :: t in out.posts <==> InRange(start, turn, t) && PostsOn(env(t)))
    && (forall i, j :: 0 <= i < j < |out.posts| ==> out.posts[i] < out.posts[j])
    && (out.turnsUsed == 0 || (InRange(start, turn, out.turnsUsed) && !env(out.turnsUsed).Aborted?))
    && (forall t: nat :: InRange(start, turn, t) && !env(t).Aborted? ==> t <= out.turnsUsed)
  }

  /** The loop has played exactly the turns from `start` up to `turn`. */
  ghost predicate Traced(rows: Table, job: Job, env: Env, start: nat, turn: nat, s: LoopState) {
    && start <= turn
    && (forall t: nat :: InRange(start, turn, t) ==> Plays(rows, job, env, start, t))
    && (forall k: Key :: RowTold(rows, s.rows, job, env, start, InRange(start, turn, k.turn), k))
    && (forall f :: KeyOf(f) in s.prior ==> Raised(env, start, turn, f))
    && (forall f :: Raised(env, start, turn, f) ==> KeyOf(f) in s.prior)
    && (s.goesOn <==> forall t: nat :: InRange(start, turn, t) ==> GoesOn(env, start, t))
    && OutcomeTold(s.out, env, start, turn)
  }

  /** The rule the loop applies is the one told here. */
  lemma ConsensusTold(env: Env, start: nat, t: nat, prior: set<FindingKey>)
    requires !env(t).NoReview?
    requires forall f :: KeyOf(f) in prior <==> Raised(env, start, t, f)
    ensures ReachedConsensus(env(t).review, prior) <==> Agrees(env, start, t)
  {
    var review := env(t).review;
    assert Keys(review.findings) - prior == {} <==> forall f :: f in review.findings ==> Raised(env, start, t, f) by {
      forall f | f in review.findings
        ensures KeyOf(f) in Keys(review.findings)
      {
      }
      if Keys(review.findings) - prior == {} {
        assert forall f :: f in review.findings ==> KeyOf(f) !in Keys(review.findings) - prior;
      }
    }
  }

  lemma PriorGrows(env: Env, start: nat, t: nat, prior: set<FindingKey>, prior': set<FindingKey>)
    requires start <= t
    requires forall f :: KeyOf(f) in prior <==> Raised(env, start, t, f)
    requires prior' == if env(t).Posted? then prior + Keys(env(t).review.findings) else prior
    ensures forall f :: KeyOf(f) in prior' <==> Raised(env, start, t + 1, f)
  {
    forall f
      ensures KeyOf(f) in prior' <==> Raised(env, start, t + 1, f)
    {
      if Raised(env, start, t, f) {
        var u: nat, g :| start <= u < t && env(u).Posted? && g in env(u).review.findings && SameFinding(f, g);
        assert Raised(env, start, t + 1, f);
      }
      if env(t).Posted? && KeyOf(f) in Keys(env(t).review.findings) {
        var g :| g in env(t).review.findings && KeyOf(g) == KeyOf(f);
        KeysIdentify(f, g);
        assert Raised(env, start, t + 1, f);
      }
      if Raised(env, start, t + 1, f) {
        var u: nat, g :| start <= u < t + 1 && env(u).Posted? && g in env(u).review.findings && SameFinding(f, g);
        KeysIdentify(f, g);
        assert u == t ==> KeyOf(g) in Keys(env(t).review.findings);
        assert u < t ==> Raised(env, start, t, f);
      }
    }
  }

  /** Winning a turn takes its row back to running. */
  lemma RowWon(rows: Table, job: Job, k: Key) returns (was: Row)
    requires CanWin(rows, k)
    ensures Win(rows, job, k) == rows[k := was.(status := Running, findingCount := None, consensus := false)]
    ensures was == if Before(rows, k).Some? then Before(rows, k).value
                   else Row(job.project, Running, None, false, Some(job.session), false, false, false)
  {
    was := if k in rows then rows[k] else Claimed(job.project, job.session);
  }

  /** The row that saving leaves. */
  lemma RowSaved(rows: Table, k: Key, saving: Saving)
    requires k in rows
    ensures Save(rows, k, saving) == rows[k := rows[k].(recorded := rows[k].recorded || saving == Saved,
                                                        dbError := rows[k].dbError || saving == Stamped)]
  {
  }

  /** The row after a turn that posted, from the row that was won, */
  lemma RowPosted(s: LoopState, job: Job, turn: nat, event: TurnEvent, won: Table, was: Row)
    requires won == Win(s.rows, job, TurnKey(job, turn)) && event.Posted?
    requires won == s.rows[TurnKey(job, turn) := was.(status := Running, findingCount := None, consensus := false)]
    ensures var agrees := ReachedConsensus(event.review, s.prior);
            Play(s, job, turn, event).rows == s.rows[TurnKey(job, turn) := Written(Some(was), job, event, agrees)]
  {
    var k := TurnKey(job, turn);
    RowSaved(MarkPosted(Complete(won, k, Completed, Some(|event.review.findings|),
                                 ReachedConsensus(event.review, s.prior)), k), k, event.saving);
  }

  /** and after one that was cut short. */
  lemma RowAborted(s: LoopState, job: Job, turn: nat, event: TurnEvent, won: Table, was: Row)
    requires won == Win(s.rows, job, TurnKey(job, turn)) && event.Aborted?
    requires won == s.rows[TurnKey(job, turn) := was.(status := Running, findingCount := None, consensus := false)]
    ensures var agrees := ReachedConsensus(event.review, s.prior);
            Play(s, job, turn, event).rows == s.rows[TurnKey(job, turn) := Written(Some(was), job, event, agrees)]
  {
  }

  /** One turn of the loop writes its row as told, and nothing else. */
  lemma RowWritten(s: LoopState, job: Job, turn: nat, event: TurnEvent)
    requires CanWin(s.rows, TurnKey(job, turn))
    ensures var k := TurnKey(job, turn);
            Play(s, job, turn, event).rows == s.rows[k := Written(Before(s.rows, k), job, event,
              !event.NoReview? && ReachedConsensus(event.review, s.prior))]
  {
    var was := RowWon(s.rows, job, TurnKey(job, turn));
    if event.Posted? {
      RowPosted(s, job, turn, event, Win(s.rows, job, TurnKey(job, turn)), was);
    } else if event.Aborted? {
      RowAborted(s, job, turn, event, Win(s.rows, job, TurnKey(job, turn)), was);
    }
  }

  lemma RowsTraced(rows: Table, job: Job, env: Env, start: nat, turn: nat, s: LoopState, p: LoopState)
    requires Traced(rows, job, env, start, turn, s) && Enters(s, job, turn)
    requires var k := TurnKey(job, turn);
             p.rows == s.rows[k := Written(Before(s.rows, k), job, env(turn), AgreesAt(env, start, turn))]
    ensures forall k: Key :: RowTold(rows, p.rows, job, env, start, InRange(start, turn + 1, k.turn), k)
  {
    forall k: Key
      ensures RowTold(rows, p.rows, job, env, start, InRange(start, turn + 1, k.turn), k)
    {
      assert RowTold(rows, s.rows, job, env, start, InRange(start, turn, k.turn), k);
    }
  }

  /** A turn is won when every turn before it was and the run went on. */
  lemma PlaysNext(rows: Table, job: Job, env: Env, start: nat, turn: nat, s: LoopState)
    requires Traced(rows, job, env, start, turn, s)
    ensures Enters(s, job, turn) <==> Plays(rows, job, env, start, turn)
  {
    var k := TurnKey(job, turn);
    assert RowTold(rows, s.rows, job, env, start, InRange(start, turn, k.turn), k);
    assert Before(rows, k) == Before(s.rows, k);
    assert CanWin(s.rows, k) <==> Free(rows, job, turn);
    assert s.goesOn <==> forall u: nat :: start <= u < turn ==> InRange(start, turn, u) && GoesOn(env, start, u);
    forall u: nat | start <= u < turn
      ensures Free(rows, job, u)
    {
      assert InRange(start, turn, u);
    }
  }

  /** What one turn does to the outcome. */
  ghost predicate OutcomeGrows(out: Outcome, out': Outcome, turn: nat, event: TurnEvent, agrees: bool) {
    && out'.consensus == (out.consensus || (event.Posted? && agrees))
    && out'.crashed == (out.crashed || event.Aborted?)
    && Retryable(out'.errors) == (Retryable(out.errors) || MayRetry(event))
    && out'.posts == (if PostsOn(event) then out.posts + [turn] else out.posts)
    && out'.turnsUsed == (if event.Aborted? then out.turnsUsed else turn)
  }

  lemma PlayGrows(s: LoopState, job: Job, turn: nat, event: TurnEvent, agrees: bool)
    requires !s.out.consensus && (!event.NoReview? ==> agrees == ReachedConsensus(event.review, s.prior))
    ensures OutcomeGrows(s.out, Play(s, job, turn, event).out, turn, event, agrees)
  {
    var errors, errors' := s.out.errors, Play(s, job, turn, event).out.errors;
    assert |errors'| == |errors| + 1 ==> errors' == errors + [errors'[|errors|]];
    assert forall e :: e in errors ==> e in errors';
    if event.NoReview? || event.PostLost? {
      assert errors'[|errors|] in errors';
    }
  }

  /** The outcome is told for one more turn. */
  lemma OutcomeTraced(out: Outcome, out': Outcome, env: Env, start: nat, turn: nat)
    requires start <= turn && OutcomeTold(out, env, start, turn)
    requires OutcomeGrows(out, out', turn, env(turn), AgreesAt(env, start, turn))
    ensures OutcomeTold(out', env, start, turn + 1)
  {
    assert forall t: nat :: InRange(start, turn + 1, t) <==> InRange(start, turn, t) || t == turn;
    forall i | 0 <= i < |out.posts|
      ensures out.posts[i] < turn
    {
      assert out.posts[i] in out.posts;
    }
    assert InRange(start, turn + 1, turn);
  }

  /** The next turn of the loop. */
  lemma NextTurnTraced(rows: Table, job: Job, env: Env, start: nat, turn: nat, s: LoopState) returns (p: LoopState)
    requires Traced(rows, job, env, start, turn, s) && Enters(s, job, turn)
    ensures PlayOn(s, job, turn, env) == LoopFrom(p, job, turn + 1, env)
    ensures Traced(rows, job, env, start, turn + 1, p)
  {
    p := Play(s, job, turn, env(turn));
    var event, agrees := env(turn), AgreesAt(env, start, turn);
    if !event.NoReview? {
      ConsensusTold(env, start, turn, s.prior);
    }
    PlaysNext(rows, job, env, start, turn, s);
    RowWritten(s, job, turn, event);
    RowsTraced(rows, job, env, start, turn, s, p);
    assert !s.out.consensus by {
      assert forall t: nat :: InRange(start, turn, t) ==> GoesOn(env, start, t);
    }
    PlayGrows(s, job, turn, event, agrees);
    OutcomeTraced(s.out, p.out, env, start, turn);
    PriorGrows(env, start, turn, s.prior, p.prior);
    assert p.goesOn <==> GoesOn(env, start, turn);
    assert forall t: nat :: InRange(start, turn + 1, t) <==> InRange(start, turn, t) || t == turn;
  }

  /** The loop plays turns until it can play no more. */
  lemma {:induction false} LoopTraced(rows: Table, job: Job, env: Env, start: nat, turn: nat, s: LoopState,
                                      end: LoopState)
    returns (last: nat)
    requires Traced(rows, job, env, start, turn, s) && end == LoopFrom(s, job, turn, env)
    ensures Traced(rows, job, env, start, last, end)
    ensures !Plays(rows, job, env, start, last)
    decreases job.maxTurns + 1 - turn
  {
    PlaysNext(rows, job, env, start, turn, s);
    if Enters(s, job, turn) {
      var p := NextTurnTraced(rows, job, env, start, turn, s);
      last := LoopTraced(rows, job, env, start, turn + 1, p, end);
    } else {
      last := turn;
    }
  }

  lemma BeginsTraced(rows: Table, job: Job, env: Env, start: nat)
    ensures Traced(rows, job, env, start, start, Beginning(rows))
  {
    assert QUIET.posts == [] && QUIET.errors == [];
  }

  // ---- A whole run ----------------------------------------------------------------

  /** The outcome of a run, from the turns it plays. */
  ghost predicate EndsAs(rows: Table, job: Job, env: Env, start: nat, out: Outcome) {
    && (out.consensus <==> exists t: nat :: Plays(rows, job, env, start, t) && env(t).Posted? && Agrees(env, start, t))
    && (out.crashed <==> exists t: nat :: Plays(rows, job, env, start, t) && env(t).Aborted?)
    && (forall t: nat :: t in out.posts <==> Plays(rows, job, env, start, t) && PostsOn(env(t)))
    && (forall i, j :: 0 <= i < j < |out.posts| ==> out.posts[i] < out.posts[j])
    && (out.turnsUsed == 0 || (Plays(rows, job, env, start, out.turnsUsed) && !env(out.turnsUsed).Aborted?))
    && (forall t: nat :: Plays(rows, job, env, start, t) && !env(t).Aborted? ==> t <= out.turnsUsed)
    && (out.dispatched <==>
          job.stage == Codex && !out.crashed
          && (out.consensus
              || (out.turnsUsed == job.maxTurns
                  && !exists t: nat :: Plays(rows, job, env, start, t) && MayRetry(env(t)))))
  }

  lemma PlaysUpTo(rows: Table, job: Job, env: Env, start: nat, last: nat, s: LoopState)
    requires Traced(rows, job, env, start, last, s) && !Plays(rows, job, env, start, last)
    ensures forall t: nat :: Plays(rows, job, env, start, t) <==> InRange(start, last, t)
  {
    forall t: nat | Plays(rows, job, env, start, t)
      ensures t < last
    {
      assert t >= last ==> forall u: nat :: start <= u <= last ==> Free(rows, job, u);
    }
  }

  /** A run that does not exit early plays the turns told, writes their rows as told, leaves
      every other row alone, and ends as told. */
  lemma RunExactly(rows: Table, job: Job, env: Env)
    requires ExitOf(rows, job).None?
    ensures var start := NextTurn(rows, job.pr, job.sha, job.stage);
            var (rows', out) := RunOf(rows, job, env);
            && (forall k: Key :: RowTold(rows, rows', job, env, start, Plays(rows, job, env, start, k.turn), k))
            && EndsAs(rows, job, env, start, out)
  {
    var start := NextTurn(rows, job.pr, job.sha, job.stage);
    var end := LoopFrom(Beginning(rows), job, start, env);
    BeginsTraced(rows, job, env, start);
    var last := LoopTraced(rows, job, env, start, start, Beginning(rows), end);
    PlaysUpTo(rows, job, env, start, last, end);
    assert RunOf(rows, job, env) == (end.rows, end.out.(dispatched := ShouldDispatch(job, end.out)));
  }

  /** The first posted review that agrees ends the run with consensus at its turn, and the row
      of that turn says so. */
  lemma FirstAgreementEnds(rows: Table, job: Job, env: Env, t: nat)
    requires ExitOf(rows, job).None?
    requires var start := NextTurn(rows, job.pr, job.sha, job.stage);
             Plays(rows, job, env, start, t) && env(t).Posted? && Agrees(env, start, t)
    ensures var start := NextTurn(rows, job.pr, job.sha, job.stage);
            var (rows', out) := RunOf(rows, job, env);
            && out.consensus && out.turnsUsed == t && !out.crashed && (out.dispatched <==> job.stage == Codex)
            && TurnKey(job, t) in rows' && rows'[TurnKey(job, t)].consensus && rows'[TurnKey(job, t)].posted
            && forall u: nat :: u > t ==> !Plays(rows, job, env, start, u)
  {
    RunExactly(rows, job, env);
    var start := NextTurn(rows, job.pr, job.sha, job.stage);
    var (rows', out) := RunOf(rows, job, env);
    var k := TurnKey(job, t);
    assert RowTold(rows, rows', job, env, start, Plays(rows, job, env, start, k.turn), k);
    assert !GoesOn(env, start, t);
    forall u: nat | Plays(rows, job, env, start, u)
      ensures u <= t && !env(u).Aborted?
    {
      assert u < t ==> GoesOn(env, start, u);
    }
  }

  /** A reviewer that approves while every review lists a new critical or high finding gets no
      consensus: the run ends without it, and no row it writes has it. */
  lemma ContradictionsEndNothing(rows: Table, job: Job, env: Env)
    requires ExitOf(rows, job).None?
    requires var start := NextTurn(rows, job.pr, job.sha, job.stage);
             forall t: nat :: !env(t).NoReview? ==>
               && !env(t).review.noFurtherConcerns
               && exists f :: f in env(t).review.findings && f.severity in {Critical, High} && !Raised(env, start, t, f)
    ensures var start := NextTurn(rows, job.pr, job.sha, job.stage);
            var (rows', out) := RunOf(rows, job, env);
            && !out.consensus
            && forall t: nat :: Plays(rows, job, env, start, t) ==>
                 TurnKey(job, t) in rows' && !rows'[TurnKey(job, t)].consensus
  {
    RunExactly(rows, job, env);
    var start := NextTurn(rows, job.pr, job.sha, job.stage);
    var rows' := RunOf(rows, job, env).0;
    forall t: nat | !env(t).NoReview?
      ensures !Agrees(env, start, t)
    {
    }
    forall t: nat | Plays(rows, job, env, start, t)
      ensures TurnKey(job, t) in rows' && !rows'[TurnKey(job, t)].consensus
    {
      var k := TurnKey(job, t);
      assert RowTold(rows, rows', job, env, start, Plays(rows, job, env, start, k.turn), k);
    }
  }

  // ---- Early exits ----------------------------------------------------------------

  predicate InStage(rows: Table, job: Job, k: Key) {
    k in rows && k.pr == job.pr && k.sha == job.sha && k.stage == job.stage
  }

  /** The lowest failed turn; if none has failed, the turn after the last, or turn 1. */
  ghost predicate ResumesAt(rows: Table, job: Job, n: nat) {
    if exists k :: InStage(rows, job, k) && rows[k].status == Failed then
      && InStage(rows, job, TurnKey(job, n)) && rows[TurnKey(job, n)].status == Failed
      && forall k :: InStage(rows, job, k) && rows[k].status == Failed ==> n <= k.turn
    else
      && (n == 1 || exists k :: InStage(rows, job, k) && n == k.turn + 1)
      && forall k :: InStage(rows, job, k) ==> k.turn < n
  }

  predicate Spoke(row: Row, session: nat) {
    || (row.posted && row.session == Some(session))
    || (row.session.None? && row.status == Completed && row.findingCount.Some?)
  }

  /** `n` is the highest turn of the stage whose row satisfies `keep`. */
  ghost predicate IsHighest(rows: Table, job: Job, keep: Row -> bool, n: nat) {
    && InStage(rows, job, TurnKey(job, n)) && keep(rows[TurnKey(job, n)])
    && forall k :: InStage(rows, job, k) && keep(rows[k]) ==> k.turn <= n
  }

  lemma ResumesAtNext(rows: Table, job: Job)
    ensures ResumesAt(rows, job, NextTurn(rows, job.pr, job.sha, job.stage))
  {
    var ts, failed := Turns(rows, job.pr, job.sha, job.stage), FailedTurns(rows, job.pr, job.sha, job.stage);
    forall k | InStage(rows, job, k)
      ensures k == TurnKey(job, k.turn) && k.turn in ts && (rows[k].status == Failed ==> k.turn in failed)
    {
    }
    assert forall t :: t in ts ==> InStage(rows, job, TurnKey(job, t));
    assert forall t :: t in failed ==> t in ts && rows[TurnKey(job, t)].status == Failed;
  }

  lemma ResumesOnce(rows: Table, job: Job, m: nat, n: nat)
    requires ResumesAt(rows, job, m) && ResumesAt(rows, job, n)
    ensures m == n
  {
  }

  lemma StageSets(rows: Table, job: Job, k: Key)
    requires InStage(rows, job, k)
    ensures k == TurnKey(job, k.turn)
    ensures rows[k].consensus <==> k.turn in ConsensusTurns(rows, job.pr, job.sha, job.stage)
    ensures rows[k].posted || rows[k].status == Completed <==> k.turn in PostedTurns(rows, job.pr, job.sha, job.stage)
  {
  }

  lemma AgreedTold(rows: Table, job: Job)
    ensures var turns := ConsensusTurns(rows, job.pr, job.sha, job.stage);
            && (turns != {} <==> exists k :: InStage(rows, job, k) && rows[k].consensus)
            && (turns != {} ==> IsHighest(rows, job, (r: Row) => r.consensus, Highest(turns)))
  {
    var turns := ConsensusTurns(rows, job.pr, job.sha, job.stage);
    forall k | InStage(rows, job, k)
      ensures k == TurnKey(job, k.turn) && (rows[k].consensus <==> k.turn in turns)
    {
      StageSets(rows, job, k);
    }
    assert forall t :: t in turns ==> InStage(rows, job, TurnKey(job, t));
  }

  lemma PostedTold(rows: Table, job: Job)
    ensures var turns := PostedTurns(rows, job.pr, job.sha, job.stage);
            turns != {} ==> IsHighest(rows, job, (r: Row) => r.posted || r.status == Completed, Highest(turns))
  {
    var turns := PostedTurns(rows, job.pr, job.sha, job.stage);
    forall k | InStage(rows, job, k)
      ensures k == TurnKey(job, k.turn)
      ensures rows[k].posted || rows[k].status == Completed <==> k.turn in turns
    {
      StageSets(rows, job, k);
    }
    assert forall t :: t in turns ==> InStage(rows, job, TurnKey(job, t));
  }

  lemma SpokenTold(rows: Table, job: Job)
    ensures SessionPosted(rows, job.pr, job.sha, job.stage, job.session) <==>
              exists k :: InStage(rows, job, k) && Spoke(rows[k], job.session)
    ensures SessionPosted(rows, job.pr, job.sha, job.stage, job.session) ==>
              PostedTurns(rows, job.pr, job.sha, job.stage) != {}
  {
    if SessionPosted(rows, job.pr, job.sha, job.stage, job.session) {
      var k :| k in rows && k.pr == job.pr && k.sha == job.sha && k.stage == job.stage
        && ((rows[k].posted && rows[k].session == Some(job.session))
            || (rows[k].session.None? && rows[k].status == Completed && rows[k].findingCount.Some?));
      assert InStage(rows, job, k) && Spoke(rows[k], job.session);
      StageSets(rows, job, k);
    }
  }

  /** A run exits early exactly when a row of its stage agrees, no turn of the budget is left,
      or its session has spoken; and says so, with nothing posted and nothing dispatched. */
  lemma EarlyExitExactly(rows: Table, job: Job, n: nat)
    requires ResumesAt(rows, job, n)
    ensures n == NextTurn(rows, job.pr, job.sha, job.stage)
    ensures var agreed := exists k :: InStage(rows, job, k) && rows[k].consensus;
            var spoken := exists k :: InStage(rows, job, k) && Spoke(rows[k], job.session);
            var exit := ExitOf(rows, job);
            && (exit.Some? <==> agreed || n > job.maxTurns || spoken)
            && (exit.Some? ==> exit.value == Outcome(exit.value.turnsUsed, agreed, [], [], false, false))
            && (agreed ==> IsHighest(rows, job, (r: Row) => r.consensus, exit.value.turnsUsed))
            && (!agreed && n > job.maxTurns ==> exit.value.turnsUsed == 0)
            && (!agreed && n <= job.maxTurns && spoken ==>
                  IsHighest(rows, job, (r: Row) => r.posted || r.status == Completed, exit.value.turnsUsed))
  {
    ResumesAtNext(rows, job);
    ResumesOnce(rows, job, n, NextTurn(rows, job.pr, job.sha, job.stage));
    AgreedTold(rows, job);
    PostedTold(rows, job);
    SpokenTold(rows, job);
  }
}
