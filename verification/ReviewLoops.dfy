/** One run of the iterative review loop (`ReviewLoop.run`) over the turn table, and what
    holds over any sequence of runs that do not overlap. */
module ReviewLoops {
  import opened Prelude
  import opened TurnTable
  import opened Reviews

  datatype Job = Job(project: nat, pr: string, sha: string, stage: Stage, session: nat, maxTurns: nat)

  function TurnKey(job: Job, turn: nat): Key {
    Key(job.pr, job.sha, job.stage, turn)
  }

  /** How persisting the findings went: saved, failed with the error marker stamped, or
      failed with the stamp lost as well. */
  datatype Saving = Saved | Stamped | Unstamped

  /** Where an exception ends the run: before the GitHub post, between the post and the
      completion of the turn, before `posted_at` is stamped, or before findings are saved. */
  datatype Cut = BeforePost | AfterPost | AfterComplete | AfterMark

  /** What the outside world does with one turn. */
  datatype TurnEvent =
    | NoReview(timedOut: bool)
    | PostLost(review: Review)
    | Posted(review: Review, saving: Saving)
    | Aborted(review: Review, at: Cut)

  datatype ErrorKind = TurnFailed | TurnTimedOut | PostFailed

  datatype TurnError = TurnError(turn: nat, kind: ErrorKind)

  /** `LoopOutcome`, with the successful posts of the run, whether it dispatched CI, and
      whether an exception ended it. */
  datatype Outcome = Outcome(
    turnsUsed: nat,
    consensus: bool,
    errors: seq<TurnError>,
    posts: seq<nat>,
    dispatched: bool,
    crashed: bool
  )

  const QUIET := Outcome(0, false, [], [], false, false)

  /** A failed turn or a lost post may be retried by a later webhook; a timeout may not. */
  predicate Retryable(errors: seq<TurnError>) {
    exists e :: e in errors && e.kind != TurnTimedOut
  }

  predicate ShouldDispatch(job: Job, out: Outcome) {
    !out.crashed && DispatchesCi(job.stage, out.consensus, out.turnsUsed, job.maxTurns, Retryable(out.errors))
  }

  function Save(rows: Table, k: Key, saving: Saving): Table {
    match saving
    case Saved => RecordFindings(rows, k)
    case Stamped => StampDbError(rows, k)
    case Unstamped => rows
  }

  /** The row of a turn the run has just won, by insertion or by reset. */
  function Win(rows: Table, job: Job, k: Key): Table {
    if k in rows then rows[k := ResetRow(rows[k])] else rows[k := Claimed(job.project, job.session)]
  }

  /** How far a run is: the table, the finding keys and the outcome so far, and whether the
      loop goes on to the next turn. */
  datatype LoopState = LoopState(rows: Table, prior: set<FindingKey>, out: Outcome, goesOn: bool)

  function Beginning(rows: Table): LoopState {
    LoopState(rows, {}, QUIET, true)
  }

  /** One turn that the run has won. */
  function Play(s: LoopState, job: Job, turn: nat, event: TurnEvent): LoopState {
    var k := TurnKey(job, turn);
    var won := Win(s.rows, job, k);
    match event
    case NoReview(timedOut) =>
      s.(rows := Complete(won, k, if timedOut then TimedOut else Failed, None, false),
         out := s.out.(turnsUsed := turn,
                       errors := s.out.errors + [TurnError(turn, if timedOut then TurnTimedOut else TurnFailed)]))
    case PostLost(review) =>
      s.(rows := Complete(won, k, Failed, Some(|review.findings|), false),
         out := s.out.(turnsUsed := turn, errors := s.out.errors + [TurnError(turn, PostFailed)]),
         goesOn := false)
    case Posted(review, saving) =>
      var consensus := ReachedConsensus(review, s.prior);
      LoopState(Save(MarkPosted(Complete(won, k, Completed, Some(|review.findings|), consensus), k), k, saving),
               s.prior + Keys(review.findings),
               s.out.(turnsUsed := turn, consensus := consensus, posts := s.out.posts + [turn]), !consensus)
    case Aborted(review, at) =>
      var completed := Complete(won, k, Completed, Some(|review.findings|), ReachedConsensus(review, s.prior));
      s.(rows := match at
                 case BeforePost => won
                 case AfterPost => won
                 case AfterComplete => completed
                 case AfterMark => MarkPosted(completed, k),
         out := s.out.(crashed := true, posts := if at == BeforePost then s.out.posts else s.out.posts + [turn]),
         goesOn := false)
  }

  /** The loop from `turn` on. */
  function LoopFrom(s: LoopState, job: Job, turn: nat, env: nat -> TurnEvent): LoopState
    decreases job.maxTurns + 1 - turn, 1
  {
    if Enters(s, job, turn) then PlayOn(s, job, turn, env) else s
  }

  predicate Enters(s: LoopState, job: Job, turn: nat) {
    s.goesOn && turn <= job.maxTurns && CanWin(s.rows, TurnKey(job, turn))
  }

  /** The loop from `turn` on, once that turn is won. */
  function PlayOn(s: LoopState, job: Job, turn: nat, env: nat -> TurnEvent): LoopState
    requires turn <= job.maxTurns
    decreases job.maxTurns + 1 - turn, 0
  {
    LoopFrom(Play(s, job, turn, env(turn)), job, turn + 1, env)
  }

  /** The early exits, on consensus, on a spent turn budget and on a session that has posted. */
  ghost function ExitOf(rows: Table, job: Job): Option<Outcome> {
    var posted := PostedTurns(rows, job.pr, job.sha, job.stage);
    if AtConsensus(rows, job.pr, job.sha, job.stage) then
      Some(QUIET.(turnsUsed := Highest(ConsensusTurns(rows, job.pr, job.sha, job.stage)), consensus := true))
    else if NextTurn(rows, job.pr, job.sha, job.stage) > job.maxTurns then Some(QUIET)
    else if SessionPosted(rows, job.pr, job.sha, job.stage, job.session) then
      Some(QUIET.(turnsUsed := if posted == {} then 0 else Highest(posted)))
    else None
  }

  /** A whole run: an early exit, or the loop from the resumed turn. */
  ghost function RunOf(rows: Table, job: Job, env: nat -> TurnEvent): (Table, Outcome) {
    if ExitOf(rows, job).Some? then (rows, ExitOf(rows, job).value)
    else
      var end := LoopFrom(Beginning(rows), job, NextTurn(rows, job.pr, job.sha, job.stage), env);
      (end.rows, end.out.(dispatched := ShouldDispatch(job, end.out)))
  }

  method HighestTurn(turns: seq<nat>) returns (m: nat)
    ensures turns == [] ==> m == 0
    ensures turns != [] ==> m in turns && forall t :: t in turns ==> t <= m
  {
    m := 0;
    for i := 0 to |turns|
      invariant i == 0 ==> m == 0
      invariant i > 0 ==> m in turns && forall j :: 0 <= j < i ==> turns[j] <= m
    {
      if i == 0 || turns[i] > m {
        m := turns[i];
      }
    }
  }

  /** Filtering the listed rows gives the turn numbers of the stage that satisfy `keep`. */
  lemma ListedTurns(rows: Table, job: Job, existing: seq<Snapshot>, turns: seq<nat>, expected: set<nat>,
                    keep: Row -> bool)
    requires ListsStage(rows, job.pr, job.sha, job.stage, existing)
    requires forall t :: t in turns <==> exists s :: s in existing && s.turn == t && keep(s.row)
    requires forall t :: t in expected <==> TurnKey(job, t) in rows && keep(rows[TurnKey(job, t)])
    ensures forall t :: t in turns <==> t in expected
    ensures turns == [] <==> expected == {}
  {
    forall t
      ensures t in turns <==> t in expected
    {
      if t in expected {
        assert Snapshot(t, rows[TurnKey(job, t)]) in existing;
      }
    }
    if turns != [] {
      assert turns[0] in turns;
    }
  }

  class ReviewLoop {
    const registry: ReviewTurnRepository
    const job: Job

    constructor (registry: ReviewTurnRepository, job: Job)
      ensures this.registry == registry && this.job == job
    {
      this.registry, this.job := registry, job;
    }

    /** The turns among `existing` that satisfy `keep`. */
    static function TurnsWhere(existing: seq<Snapshot>, keep: Row -> bool): (r: seq<nat>)
      ensures forall t :: t in r <==> exists s :: s in existing && s.turn == t && keep(s.row)
    {
      if existing == [] then []
      else
        assert existing == [existing[0]] + existing[1..];
        (if keep(existing[0].row) then [existing[0].turn] else []) + TurnsWhere(existing[1..], keep)
    }

    /** The highest turn among those listed that satisfy `keep`, if there is one. */
    method HighestWhere(existing: seq<Snapshot>, keep: Row -> bool, ghost expected: set<nat>)
      returns (last: Option<nat>)
      requires ListsStage(registry.rows, job.pr, job.sha, job.stage, existing)
      requires forall t :: t in expected <==> TurnKey(job, t) in registry.rows && keep(registry.rows[TurnKey(job, t)])
      ensures last == if expected == {} then None else Some(Highest(expected))
    {
      var turns := TurnsWhere(existing, keep);
      ListedTurns(registry.rows, job, existing, turns, expected, keep);
      if turns == [] {
        return None;
      }
      var m := HighestTurn(turns);
      return Some(m);
    }

    /** The three early exits; `next` is the turn the run would resume at. */
    method EarlyExit(existing: seq<Snapshot>, next: nat) returns (exit: Option<Outcome>)
      requires ListsStage(registry.rows, job.pr, job.sha, job.stage, existing)
      requires next == NextTurn(registry.rows, job.pr, job.sha, job.stage)
      ensures exit == ExitOf(registry.rows, job)
    {
      var agreed := HighestWhere(existing, (r: Row) => r.consensus,
          ConsensusTurns(registry.rows, job.pr, job.sha, job.stage));
      if agreed.Some? {
        return Some(QUIET.(turnsUsed := agreed.value, consensus := true));
      }
      if next > job.maxTurns {
        return Some(QUIET);
      }
      var spoken := HasPosted(existing);
      if spoken {
        var posted := HighestWhere(existing, (r: Row) => r.posted || r.status == Completed,
                                   PostedTurns(registry.rows, job.pr, job.sha, job.stage));
        return Some(QUIET.(turnsUsed := if posted.Some? then posted.value else 0));
      }
      return None;
    }

    method HasPosted(existing: seq<Snapshot>) returns (spoken: bool)
      requires ListsStage(registry.rows, job.pr, job.sha, job.stage, existing)
      ensures spoken == SessionPosted(registry.rows, job.pr, job.sha, job.stage, job.session)
    {
      spoken := exists s :: (
        && s in existing
        && ((s.row.posted && s.row.session == Some(job.session))
            || (s.row.session.None? && s.row.status == Completed && s.row.findingCount.Some?)));
    }

    /** Own turn `k`: insert its row, or flip a failed row back to running. */
    method TryWin(k: Key) returns (won: bool)
      modifies registry
      ensures won == CanWin(old(registry.rows), k)
      ensures registry.rows == if won then Win(old(registry.rows), job, k) else old(registry.rows)
    {
      won := registry.ClaimTurn(k, job.project, job.session);
      if !won {
        won := registry.ResetToRunning(k);
      }
    }

    method PersistPosted(k: Key, review: Review, consensus: bool, saving: Saving)
      modifies registry
      ensures registry.rows
           == Save(MarkPosted(Complete(old(registry.rows), k, Completed, Some(|review.findings|), consensus), k),
                   k, saving)
    {
      registry.CompleteTurn(k, Completed, Some(|review.findings|), consensus);
      var _ := registry.MarkTurnPosted(k);
      if saving == Saved {
        registry.RecordTurnFindings(k);
      } else if saving == Stamped {
        registry.SetDbError(k);
      }
    }

    /** The body of the loop once turn `turn` is won; `before` is the table as it was. */
    method PlayTurn(turn: nat, priorKeys: set<FindingKey>, out: Outcome, event: TurnEvent,
                    ghost before: Table)
      returns (priorKeys': set<FindingKey>, out': Outcome, goesOn: bool)
      requires registry.rows == Win(before, job, TurnKey(job, turn))
      modifies registry
      ensures LoopState(registry.rows, priorKeys', out', goesOn) ==
                Play(LoopState(before, priorKeys, out, true), job, turn, event)
    {
      var k := TurnKey(job, turn);
      priorKeys', out', goesOn := priorKeys, out, false;
      match event {
        case NoReview(timedOut) =>
          registry.CompleteTurn(k, if timedOut then TimedOut else Failed, None, false);
          out' := out.(turnsUsed := turn,
                       errors := out.errors + [TurnError(turn, if timedOut then TurnTimedOut else TurnFailed)]);
          goesOn := true;
        case PostLost(review) =>
          registry.CompleteTurn(k, Failed, Some(|review.findings|), false);
          out' := out.(turnsUsed := turn, errors := out.errors + [TurnError(turn, PostFailed)]);
        case Posted(review, saving) =>
          var consensus := ReachedConsensus(review, priorKeys);
          PersistPosted(k, review, consensus, saving);
          out' := out.(turnsUsed := turn, consensus := consensus, posts := out.posts + [turn]);
          priorKeys' := priorKeys + Keys(review.findings);
          goesOn := !consensus;
        case Aborted(review, at) =>
          out' := out.(crashed := true, posts := if at == BeforePost then out.posts else out.posts + [turn]);
          if at == AfterComplete || at == AfterMark {
            registry.CompleteTurn(k, Completed, Some(|review.findings|), ReachedConsensus(review, priorKeys));
          }
          if at == AfterMark {
            var _ := registry.MarkTurnPosted(k);
          }
      }
    }

    /** The loop of `run` from turn `start`. */
    method Iterate(start: nat, env: nat -> TurnEvent) returns (out: Outcome)
      modifies registry
      ensures var end := LoopFrom(Beginning(old(registry.rows)), job, start, env);
              registry.rows == end.rows && out == end.out
    {
      ghost var end := LoopFrom(Beginning(registry.rows), job, start, env);
      out := QUIET;
      var turn := start;
      var priorKeys: set<FindingKey> := {};
      var goesOn := true;
      while goesOn && turn <= job.maxTurns
        invariant LoopFrom(LoopState(registry.rows, priorKeys, out, goesOn), job, turn, env) == end
        decreases job.maxTurns + 1 - turn
      {
        ghost var before := registry.rows;
        var won := TryWin(TurnKey(job, turn));
        if !won {
          return;
        }
        ghost var s := LoopState(before, priorKeys, out, true);
        priorKeys, out, goesOn := PlayTurn(turn, priorKeys, out, env(turn), before);
        turn := turn + 1;
      }
    }

    /** `run`. The environment says, turn by turn, what the reviewer and GitHub do. */
    method Run(env: nat -> TurnEvent) returns (out: Outcome)
      modifies registry
      ensures (registry.rows, out) == RunOf(old(registry.rows), job, env)
    {
      var existing := registry.TurnsForStage(job.pr, job.sha, job.stage);
      var turn := ComputeNextTurn(existing, registry.rows, job.pr, job.sha, job.stage);
      var exit := EarlyExit(existing, turn);
      if exit.Some? {
        return exit.value;
      }
      out := Iterate(turn, env);
      out := out.(dispatched := ShouldDispatch(job, out));
    }
  }

  // ---- One run --------------------------------------------------------------------

  lemma PlayLeavesOthers(s: LoopState, job: Job, turn: nat, env: nat -> TurnEvent, k: Key)
    returns (p: LoopState)
    requires turn <= job.maxTurns && k != TurnKey(job, turn)
    ensures PlayOn(s, job, turn, env) == LoopFrom(p, job, turn + 1, env)
    ensures (k in p.rows <==> k in s.rows) && (k in s.rows ==> p.rows[k] == s.rows[k])
  {
    p := Play(s, job, turn, env(turn));
  }

  /** The loop touches no other stage and no earlier turn. */
  lemma {:induction false} LoopLeavesOthers(s: LoopState, job: Job, turn: nat, env: nat -> TurnEvent,
                                            k: Key)
    requires k != TurnKey(job, k.turn) || k.turn < turn
    ensures var rows' := LoopFrom(s, job, turn, env).rows;
            (k in rows' <==> k in s.rows) && (k in s.rows ==> rows'[k] == s.rows[k])
    decreases job.maxTurns + 1 - turn
  {
    if Enters(s, job, turn) {
      var p := PlayLeavesOthers(s, job, turn, env, k);
      LoopLeavesOthers(p, job, turn + 1, env, k);
    }
  }

  /** No turn of the stage from `from` to the last one is missing or failed. */
  ghost predicate Finished(rows: Table, job: Job, from: nat) {
    forall t :: from <= t <= job.maxTurns ==> TurnKey(job, t) in rows && rows[TurnKey(job, t)].status != Failed
  }

  /** A run that goes on has neither agreed nor crashed; one that has stopped has agreed,
      crashed, or left something to retry. */
  ghost predicate Consistent(s: LoopState, job: Job) {
    if s.goesOn then !s.out.consensus && !s.out.crashed
    else
      && (s.out.consensus || s.out.crashed || Retryable(s.out.errors))
      && (s.out.consensus ==> AtConsensus(s.rows, job.pr, job.sha, job.stage))
  }

  /** What one turn does to its own row and to the list of errors. */
  lemma PlayedTurn(s: LoopState, job: Job, turn: nat, env: nat -> TurnEvent) returns (p: LoopState)
    requires turn <= job.maxTurns && s.goesOn && Consistent(s, job)
    ensures PlayOn(s, job, turn, env) == LoopFrom(p, job, turn + 1, env)
    ensures Consistent(p, job)
    ensures TurnKey(job, turn) in p.rows
    ensures Retryable(s.out.errors) ==> Retryable(p.out.errors)
    ensures p.goesOn ==> p.out.turnsUsed == turn
    ensures p.goesOn && !Retryable(p.out.errors) ==> p.rows[TurnKey(job, turn)].status != Failed
  {
    p := Play(s, job, turn, env(turn));
    assert forall e :: e in s.out.errors ==> e in p.out.errors;
    match env(turn)
    case NoReview(timedOut) =>
      assert TurnError(turn, if timedOut then TurnTimedOut else TurnFailed) in p.out.errors;
    case PostLost(_) =>
      assert TurnError(turn, PostFailed) in p.out.errors;
    case Posted(review, _) =>
      assert ReachedConsensus(review, s.prior) ==> turn in ConsensusTurns(p.rows, job.pr, job.sha, job.stage);
    case Aborted(_, _) =>
  }

  /** What a loop that ends in a dispatch leaves behind: a turn with consensus, or every turn
      from where it started filled and none of them failed. */
  lemma {:induction false} DispatchLeavesFinal(s: LoopState, job: Job, turn: nat, env: nat -> TurnEvent,
                                               end: LoopState)
    requires Consistent(s, job) && end == LoopFrom(s, job, turn, env) && ShouldDispatch(job, end.out)
    requires s.goesOn && turn <= job.maxTurns ==> s.out.turnsUsed != job.maxTurns || CanWin(s.rows, TurnKey(job, turn))
    ensures AtConsensus(end.rows, job.pr, job.sha, job.stage)
            || (s.goesOn && Finished(end.rows, job, turn) && !Retryable(s.out.errors))
    decreases job.maxTurns + 1 - turn
  {
    if Enters(s, job, turn) {
      var p := PlayedTurn(s, job, turn, env);
      DispatchLeavesFinal(p, job, turn + 1, env, end);
      LoopLeavesOthers(p, job, turn + 1, env, TurnKey(job, turn));
    }
  }

  /** The distinct finding keys of the reviews that the turns from `from` on would post. */
  function Reported(env: nat -> TurnEvent, from: nat, to: nat): set<FindingKey>
    decreases to + 1 - from
  {
    if from > to then {}
    else
      (if env(from).Posted? then Keys(env(from).review.findings) else {})
      + Reported(env, from + 1, to)
  }

  /** How many finding keys the turns from `from` on could still add to `prior`. */
  function News(env: nat -> TurnEvent, from: nat, to: nat, prior: set<FindingKey>): nat {
    |Reported(env, from, to) - prior|
  }

  /** The posts that have to be paid for by new findings: all but one that ended the run. */
  function Charged(out: Outcome): int {
    |out.posts| - (if out.consensus || out.crashed then 1 else 0)
  }

  function Budget(s: LoopState, env: nat -> TurnEvent, turn: nat, to: nat): nat {
    if s.goesOn then News(env, turn, to, s.prior) else 0
  }

  /** The turn posts a review that does not end the run. */
  predicate Stalls(s: LoopState, event: TurnEvent) {
    event.Posted? && !ReachedConsensus(event.review, s.prior)
  }

  lemma PlayedOutcome(s: LoopState, job: Job, turn: nat, env: nat -> TurnEvent) returns (p: LoopState)
    requires s.goesOn && !s.out.consensus && !s.out.crashed && turn <= job.maxTurns
    ensures PlayOn(s, job, turn, env) == LoopFrom(p, job, turn + 1, env)
    ensures p.goesOn ==> !p.out.consensus && !p.out.crashed
    ensures Charged(p.out) <= Charged(s.out) + if Stalls(s, env(turn)) then 1 else 0
    ensures Stalls(s, env(turn)) ==> p.goesOn
    ensures p.prior == if env(turn).Posted? then s.prior + Keys(env(turn).review.findings) else s.prior
    ensures p.goesOn && env(turn).Posted? ==> Stalls(s, env(turn))
  {
    p := Play(s, job, turn, env(turn));
  }

  /** A turn that lets the loop go on posts nothing or adds a new key. */
  lemma PlayedPosts(s: LoopState, job: Job, turn: nat, env: nat -> TurnEvent) returns (p: LoopState)
    requires s.goesOn && !s.out.consensus && !s.out.crashed && turn <= job.maxTurns
    ensures PlayOn(s, job, turn, env) == LoopFrom(p, job, turn + 1, env)
    ensures p.goesOn ==> !p.out.consensus && !p.out.crashed
    ensures Charged(p.out) + Budget(p, env, turn + 1, job.maxTurns) <=
              Charged(s.out) + Budget(s, env, turn, job.maxTurns)
  {
    p := PlayedOutcome(s, job, turn, env);
    NewsShrinks(env, turn, job.maxTurns, s.prior);
  }

  lemma NewsShrinks(env: nat -> TurnEvent, turn: nat, to: nat, prior: set<FindingKey>)
    requires turn <= to
    ensures News(env, turn + 1, to, prior) <= News(env, turn, to, prior)
    ensures env(turn).Posted? && !ReachedConsensus(env(turn).review, prior) ==>
              News(env, turn + 1, to, prior + Keys(env(turn).review.findings)) < News(env, turn, to, prior)
  {
    var here, later := Reported(env, turn, to), Reported(env, turn + 1, to);
    SubsetSize(later - prior, here - prior);
    if env(turn).Posted? && !ReachedConsensus(env(turn).review, prior) {
      var keys := Keys(env(turn).review.findings);
      var x :| x in keys - prior;
      SubsetSize({x} + (later - (prior + keys)), here - prior);
    }
  }

  /** The posts that do not end the run are no more than the finding keys that the rest of the
      budget can still add. */
  lemma {:induction false} StalledTurnsBringNews(s: LoopState, job: Job, turn: nat,
                                                 env: nat -> TurnEvent, end: LoopState)
    requires (s.goesOn ==> !s.out.consensus && !s.out.crashed) && end == LoopFrom(s, job, turn, env)
    ensures Charged(end.out) <= Charged(s.out) + Budget(s, env, turn, job.maxTurns)
    decreases job.maxTurns + 1 - turn
  {
    if Enters(s, job, turn) {
      var p := PlayedPosts(s, job, turn, env);
      StalledTurnsBringNews(p, job, turn + 1, env, end);
    }
  }

  /** The number of posted turns that do not end the run is at most the number of distinct
      finding keys the reviewer reports in it. */
  lemma PostsBoundedByFindings(rows: Table, job: Job, env: nat -> TurnEvent)
    ensures var out := RunOf(rows, job, env).1;
            |out.posts| <= |Reported(env, NextTurn(rows, job.pr, job.sha, job.stage), job.maxTurns)|
                           + (if out.consensus || out.crashed then 1 else 0)
  {
    var start := NextTurn(rows, job.pr, job.sha, job.stage);
    StalledTurnsBringNews(Beginning(rows), job, start, env, LoopFrom(Beginning(rows), job, start, env));
    assert Reported(env, start, job.maxTurns) - {} == Reported(env, start, job.maxTurns);
  }

  // ---- Runs one after the other ---------------------------------------------------

  datatype Firing = Firing(job: Job, env: nat -> TurnEvent)

  ghost function TableAfter(rows: Table, firings: seq<Firing>): Table
    decreases |firings|
  {
    if firings == [] then rows
    else TableAfter(RunOf(rows, firings[0].job, firings[0].env).0, firings[1..])
  }

  predicate Concerns(f: Firing, pr: string, sha: string, stage: Stage) {
    f.job.pr == pr && f.job.sha == sha && f.job.stage == stage
  }

  /** How often CI is dispatched for one commit of one pull request. */
  ghost function Dispatches(rows: Table, firings: seq<Firing>, pr: string, sha: string): nat
    decreases |firings|
  {
    if firings == [] then 0
    else
      var (rows', out) := RunOf(rows, firings[0].job, firings[0].env);
      (if out.dispatched && Concerns(firings[0], pr, sha, Codex) then 1 else 0) +
          Dispatches(rows', firings[1..], pr, sha)
  }

  /** The two tables agree on one stage of one commit. */
  ghost predicate SameStage(a: Table, b: Table, pr: string, sha: string, stage: Stage) {
    forall t: nat :: var k := Key(pr, sha, stage, t); (k in a <==> k in b) && (k in a ==> a[k] == b[k])
  }

  lemma OtherRunsLeaveStage(rows: Table, f: Firing, pr: string, sha: string, stage: Stage)
    requires !Concerns(f, pr, sha, stage)
    ensures SameStage(rows, RunOf(rows, f.job, f.env).0, pr, sha, stage)
  {
    forall t: nat
      ensures var k, rows' := Key(pr, sha, stage, t), RunOf(rows, f.job, f.env).0;
              (k in rows <==> k in rows') && (k in rows ==> rows[k] == rows'[k])
    {
      LoopLeavesOthers(Beginning(rows), f.job, NextTurn(rows, f.job.pr, f.job.sha, f.job.stage), f.env,
          Key(pr, sha, stage, t));
    }
  }

  lemma SameStageReadsSame(a: Table, b: Table, pr: string, sha: string, stage: Stage)
    requires SameStage(a, b, pr, sha, stage)
    ensures Turns(a, pr, sha, stage) == Turns(b, pr, sha, stage)
    ensures FailedTurns(a, pr, sha, stage) == FailedTurns(b, pr, sha, stage)
    ensures ConsensusTurns(a, pr, sha, stage) == ConsensusTurns(b, pr, sha, stage)
  {
    assert forall t :: t in Turns(a, pr, sha, stage) <==> Key(pr, sha, stage, t) in a;
    assert forall t :: t in Turns(b, pr, sha, stage) <==> Key(pr, sha, stage, t) in b;
    assert forall t :: t in FailedTurns(a, pr, sha, stage) <==>
      (Key(pr, sha, stage, t) in a && a[Key(pr, sha, stage, t)].status == Failed);
    assert forall t :: t in FailedTurns(b, pr, sha, stage) <==>
      (Key(pr, sha, stage, t) in b && b[Key(pr, sha, stage, t)].status == Failed);
    assert forall t :: t in ConsensusTurns(a, pr, sha, stage) <==>
      (Key(pr, sha, stage, t) in a && a[Key(pr, sha, stage, t)].consensus);
    assert forall t :: t in ConsensusTurns(b, pr, sha, stage) <==>
      (Key(pr, sha, stage, t) in b && b[Key(pr, sha, stage, t)].consensus);
  }

  /** The codex stage of a commit is over: some turn agreed, or no turn within the budget is
      left to run or to retry. */
  ghost predicate Final(rows: Table, pr: string, sha: string, maxTurns: nat) {
    || AtConsensus(rows, pr, sha, Codex)
    || NextTurn(rows, pr, sha, Codex) > maxTurns
  }

  /** The resumed turn is either absent or failed, so the run wins it. */
  lemma NextTurnIsFree(rows: Table, job: Job)
    ensures CanWin(rows, TurnKey(job, NextTurn(rows, job.pr, job.sha, job.stage)))
  {
    var ts, failed := Turns(rows, job.pr, job.sha, job.stage), FailedTurns(rows, job.pr, job.sha, job.stage);
    var k := TurnKey(job, NextTurn(rows, job.pr, job.sha, job.stage));
    if k in rows {
      assert k.turn in ts;
    }
  }

  lemma FailedBefore(rows: Table, rows': Table, j: Job, t: nat)
    ensures (&& TurnKey(j, t) in rows && TurnKey(j, t) in rows' && rows[TurnKey(j, t)] == rows'[TurnKey(j, t)]
             && t in FailedTurns(rows', j.pr, j.sha, j.stage)) ==>
              t in FailedTurns(rows, j.pr, j.sha, j.stage)
    ensures t in FailedTurns(rows', j.pr, j.sha, j.stage) ==> TurnKey(j, t) in rows'
  {
  }

  lemma FinishedNotFailed(rows: Table, j: Job, from: nat, t: nat)
    ensures Finished(rows, j, from) && from <= t <= j.maxTurns ==> t !in FailedTurns(rows, j.pr, j.sha, j.stage)
  {
    assert t in FailedTurns(rows, j.pr, j.sha, j.stage) ==>
      TurnKey(j, t) in rows && rows[TurnKey(j, t)].status == Failed;
  }

  lemma FailedNotBelowNext(rows: Table, j: Job, t: nat)
    ensures t in FailedTurns(rows, j.pr, j.sha, j.stage) ==> NextTurn(rows, j.pr, j.sha, j.stage) <= t
  {
    if t in FailedTurns(rows, j.pr, j.sha, j.stage) {
      assert t in Turns(rows, j.pr, j.sha, j.stage);
    }
  }

  /** Filling every turn from the resumed one on leaves nothing to run. */
  lemma FinishedLeavesNoTurn(rows: Table, rows': Table, j: Job, start: nat)
    requires start == NextTurn(rows, j.pr, j.sha, j.stage) <= j.maxTurns
    requires Finished(rows', j, start)
    requires forall t: nat :: t < start && TurnKey(j, t) in rows' ==>
               TurnKey(j, t) in rows && rows[TurnKey(j, t)] == rows'[TurnKey(j, t)]
    ensures NextTurn(rows', j.pr, j.sha, j.stage) > j.maxTurns
  {
    assert TurnKey(j, j.maxTurns) in rows';
    assert j.maxTurns in Turns(rows', j.pr, j.sha, j.stage);
    forall t | t in FailedTurns(rows', j.pr, j.sha, j.stage)
      ensures t > j.maxTurns
    {
      FinishedNotFailed(rows', j, start, t);
      FailedBefore(rows, rows', j, t);
      FailedNotBelowNext(rows, j, t);
    }
  }

  lemma DispatchIsFinal(rows: Table, f: Firing)
    requires RunOf(rows, f.job, f.env).1.dispatched
    ensures f.job.stage == Codex
    ensures Final(RunOf(rows, f.job, f.env).0, f.job.pr, f.job.sha, f.job.maxTurns)
  {
    var j := f.job;
    var start := NextTurn(rows, j.pr, j.sha, j.stage);
    var end := LoopFrom(Beginning(rows), j, start, f.env);
    NextTurnIsFree(rows, j);
    DispatchLeavesFinal(Beginning(rows), j, start, f.env, end);
    forall t: nat | t < start && TurnKey(j, t) in end.rows
      ensures TurnKey(j, t) in rows && rows[TurnKey(j, t)] == end.rows[TurnKey(j, t)]
    {
      LoopLeavesOthers(Beginning(rows), j, start, f.env, TurnKey(j, t));
    }
    if !AtConsensus(end.rows, j.pr, j.sha, Codex) {
      FinishedLeavesNoTurn(rows, end.rows, j, start);
    }
  }

  lemma {:induction false} FinalStaysSilent(rows: Table, firings: seq<Firing>, pr: string, sha: string,
                                            maxTurns: nat)
    requires Final(rows, pr, sha, maxTurns)
    requires forall f :: f in firings && Concerns(f, pr, sha, Codex) ==> f.job.maxTurns == maxTurns
    ensures Dispatches(rows, firings, pr, sha) == 0 && Final(TableAfter(rows, firings), pr, sha, maxTurns)
    decreases |firings|
  {
    if firings != [] {
      var f := firings[0];
      var rows' := RunOf(rows, f.job, f.env).0;
      if !Concerns(f, pr, sha, Codex) {
        OtherRunsLeaveStage(rows, f, pr, sha, Codex);
        SameStageReadsSame(rows, rows', pr, sha, Codex);
      }
      FinalStaysSilent(rows', firings[1..], pr, sha, maxTurns);
    }
  }

  /** CI is dispatched at most once for a commit, over every sequence of runs that follow one
      another, whatever the reviewer and GitHub do, wherever a run is cut short, and whatever
      else runs in between; the turn budget may be any number but must not change. */
  lemma {:induction false} CiDispatchedAtMostOnce(rows: Table, firings: seq<Firing>, pr: string,
                                                  sha: string, maxTurns: nat)
    requires forall f :: f in firings && Concerns(f, pr, sha, Codex) ==> f.job.maxTurns == maxTurns
    ensures Dispatches(rows, firings, pr, sha) <= 1
    decreases |firings|
  {
    if firings != [] {
      var f := firings[0];
      var (rows', out) := RunOf(rows, f.job, f.env);
      if out.dispatched && Concerns(f, pr, sha, Codex) {
        DispatchIsFinal(rows, f);
        FinalStaysSilent(rows', firings[1..], pr, sha, maxTurns);
      } else {
        CiDispatchedAtMostOnce(rows', firings[1..], pr, sha, maxTurns);
      }
    }
  }

  /** Once a turn of a stage has recorded consensus, later runs leave its rows alone. */
  lemma {:induction false} ConsensusKeepsStage(rows: Table, firings: seq<Firing>, pr: string,
                                               sha: string, stage: Stage)
    requires AtConsensus(rows, pr, sha, stage)
    ensures SameStage(rows, TableAfter(rows, firings), pr, sha, stage)
    decreases |firings|
  {
    if firings != [] {
      var f := firings[0];
      var rows' := RunOf(rows, f.job, f.env).0;
      if !Concerns(f, pr, sha, stage) {
        OtherRunsLeaveStage(rows, f, pr, sha, stage);
        SameStageReadsSame(rows, rows', pr, sha, stage);
      }
      ConsensusKeepsStage(rows', firings[1..], pr, sha, stage);
      assert SameStage(rows', TableAfter(rows', firings[1..]), pr, sha, stage);
      forall t: nat
        ensures var k, last := Key(pr, sha, stage, t), TableAfter(rows, firings);
                (k in rows <==> k in last) && (k in rows ==> rows[k] == last[k])
      {
        var k := Key(pr, sha, stage, t);
        assert (k in rows <==> k in rows') && (k in rows ==> rows[k] == rows'[k]);
      }
    }
  }

  /** Consensus is terminal: once a turn of a stage has recorded it, every later run for that
      stage of the commit leaves its rows alone and posts nothing. */
  lemma ConsensusIsTerminal(rows: Table, firings: seq<Firing>, pr: string, sha: string, stage: Stage)
    requires AtConsensus(rows, pr, sha, stage)
    ensures SameStage(rows, TableAfter(rows, firings), pr, sha, stage)
    ensures forall i :: 0 <= i < |firings| && Concerns(firings[i], pr, sha, stage) ==>
              RunOf(TableAfter(rows, firings[..i]), firings[i].job, firings[i].env).1.posts == []
  {
    ConsensusKeepsStage(rows, firings, pr, sha, stage);
    forall i | 0 <= i < |firings| && Concerns(firings[i], pr, sha, stage)
      ensures RunOf(TableAfter(rows, firings[..i]), firings[i].job, firings[i].env).1.posts == []
    {
      ConsensusKeepsStage(rows, firings[..i], pr, sha, stage);
      SameStageReadsSame(rows, TableAfter(rows, firings[..i]), pr, sha, stage);
    }
  }

  /** So the badge of that commit stays PASS for good, provided some agreeing turn completed
      without the persistence error mark and no abandoned row still says running. */
  lemma PassIsForGood(rows: Table, firings: seq<Firing>, project: nat, pr: string, sha: string,
                      maxTurns: nat)
    requires sha != "" && Badge(rows, project, pr, sha, maxTurns) == Pass
    ensures Badge(TableAfter(rows, firings), project, pr, sha, maxTurns) == Pass
  {
    PassExactly(rows, project, pr, sha, maxTurns);
    var last := TableAfter(rows, firings);
    var k :| k in CodexRows(rows, project, pr) && k.sha == sha
             && rows[k].status == Completed && rows[k].consensus && !rows[k].dbError;
    assert k.turn in ConsensusTurns(rows, pr, sha, Codex);
    ConsensusIsTerminal(rows, firings, pr, sha, Codex);
    assert SameStage(rows, last, pr, sha, Codex);
    forall j | j in CodexRows(last, project, pr) && j.sha == sha
      ensures j in CodexRows(rows, project, pr) && rows[j] == last[j]
    {
      assert j == Key(pr, sha, Codex, j.turn);
    }
    assert k == Key(pr, sha, Codex, k.turn);
    assert k in CodexRows(last, project, pr);
    PassExactly(last, project, pr, sha, maxTurns);
  }

  // ---- Exactly once ---------------------------------------------------------------

  /** No exception cuts a run of this webhook short. */
  ghost predicate Uninterrupted(f: Firing) {
    forall t: nat :: !f.env(t).Aborted?
  }

  /** The codex stage of a commit starts without rows, its budget is fixed, and none of its
      runs is cut short. */
  ghost predicate FromScratch(rows: Table, firings: seq<Firing>, pr: string, sha: string, maxTurns: nat) {
    && Turns(rows, pr, sha, Codex) == {}
    && forall f :: f in firings && Concerns(f, pr, sha, Codex) ==> f.job.maxTurns == maxTurns && Uninterrupted(f)
  }

  /** At most turn 1 has a row, and it waits to be retried. */
  ghost predicate Undecided(rows: Table, pr: string, sha: string) {
    forall t: nat :: var k := Key(pr, sha, Codex, t);
      k in rows ==> t == 1 && rows[k].status == Failed && !rows[k].consensus && !rows[k].posted && rows[k].session.Some?
  }

  lemma UndecidedStage(rows: Table, pr: string, sha: string)
    requires Undecided(rows, pr, sha)
    ensures NextTurn(rows, pr, sha, Codex) == 1 && !AtConsensus(rows, pr, sha, Codex)
    ensures forall session :: !SessionPosted(rows, pr, sha, Codex, session)
  {
    var ts, failed := Turns(rows, pr, sha, Codex), FailedTurns(rows, pr, sha, Codex);
    assert forall t :: t in ts <==> Key(pr, sha, Codex, t) in rows;
    assert forall t :: t in ts ==> t in failed && t == 1;
    forall k | k in rows && k.pr == pr && k.sha == sha && k.stage == Codex
      ensures !rows[k].posted && rows[k].session.Some?
    {
      assert k == Key(pr, sha, Codex, k.turn);
    }
  }

  /** With a budget of one turn a run either leaves the stage undecided or dispatches. */
  lemma SingleTurnRun(rows: Table, f: Firing)
    requires f.job.stage == Codex && f.job.maxTurns == 1 && Uninterrupted(f)
    requires Undecided(rows, f.job.pr, f.job.sha)
    ensures var (rows', out) := RunOf(rows, f.job, f.env);
            !out.dispatched ==> Undecided(rows', f.job.pr, f.job.sha)
  {
    UndecidedStage(rows, f.job.pr, f.job.sha);
    var j, s := f.job, Beginning(rows);
    var p := Play(s, j, 1, f.env(1));
    assert Enters(s, j, 1);
    assert LoopFrom(s, j, 1, f.env) == LoopFrom(p, j, 2, f.env) == p;
    assert !f.env(1).Aborted?;
    if f.env(1).NoReview? {
      assert p.out.errors == [TurnError(1, if f.env(1).timedOut then TurnTimedOut else TurnFailed)];
    }
    if f.env(1).PostLost? {
      assert p.out.errors == [TurnError(1, PostFailed)];
    }
    if f.env(1).Posted? {
      assert p.out.errors == [];
    }
    forall t: nat
      ensures t != 1 ==> (Key(j.pr, j.sha, Codex, t) in p.rows <==> Key(j.pr, j.sha, Codex, t) in rows)
    {
    }
  }

  /** With a budget of one turn the stage is final exactly when CI was dispatched once. */
  lemma {:induction false} SingleTurnDispatches(rows: Table, firings: seq<Firing>, pr: string, sha: string)
    requires Undecided(rows, pr, sha)
    requires forall f :: f in firings && Concerns(f, pr, sha, Codex) ==> f.job.maxTurns == 1 && Uninterrupted(f)
    ensures Dispatches(rows, firings, pr, sha) == if Final(TableAfter(rows, firings), pr, sha, 1) then 1 else 0
    decreases |firings|
  {
    UndecidedStage(rows, pr, sha);
    if firings != [] {
      var f := firings[0];
      var (rows', out) := RunOf(rows, f.job, f.env);
      if !Concerns(f, pr, sha, Codex) {
        OtherRunsLeaveStage(rows, f, pr, sha, Codex);
        SameStageUndecided(rows, rows', pr, sha);
        SingleTurnDispatches(rows', firings[1..], pr, sha);
      } else if out.dispatched {
        DispatchIsFinal(rows, f);
        FinalStaysSilent(rows', firings[1..], pr, sha, 1);
      } else {
        assert f in firings;
        SingleTurnRun(rows, f);
        SingleTurnDispatches(rows', firings[1..], pr, sha);
      }
    }
  }

  lemma SameStageUndecided(a: Table, b: Table, pr: string, sha: string)
    requires SameStage(a, b, pr, sha, Codex) && Undecided(a, pr, sha)
    ensures Undecided(b, pr, sha)
  {
    forall t: nat
      ensures var k := Key(pr, sha, Codex, t);
              k in b ==> t == 1 && b[k].status == Failed && !b[k].consensus && !b[k].posted && b[k].session.Some?
    {
      var k := Key(pr, sha, Codex, t);
      assert (k in a <==> k in b) && (k in a ==> a[k] == b[k]);
    }
  }

  /** A review that ends nothing. */
  const OBJECTION := Review(RequestChanges, false, [Finding("a", 1, Low, "t", "b")])

  /** Turn 1 fails, turn 2 posts an objection, and the rest of the budget times out. */
  function Stalling(turn: nat): TurnEvent {
    if turn == 2 then Posted(OBJECTION, Saved) else NoReview(turn > 2)
  }

  function Objecting(turn: nat): TurnEvent {
    Posted(OBJECTION, Saved)
  }

  /** Two webhooks for one commit: the second, in its own session, retries turn 1. */
  function StalledFirings(pr: string, sha: string, maxTurns: nat): seq<Firing> {
    [Firing(Job(0, pr, sha, Codex, 1, maxTurns), Stalling), Firing(Job(0, pr, sha, Codex, 2, maxTurns), Objecting)]
  }

  lemma ObjectionIsNews()
    ensures !ReachedConsensus(OBJECTION, {})
  {
    assert KeyOf(OBJECTION.findings[0]) in Keys(OBJECTION.findings) - {};
  }

  /** A row of the stalled stage: turn 2 has posted, the turns after it have timed out. */
  predicate StalledRow(r: Row, turn: nat) {
    && !r.consensus && r.session == Some(1)
    && (r.posted <==> turn == 2)
    && r.status == if turn == 1 then Failed else if turn == 2 then Completed else TimedOut
  }

  /** The stage has exactly the turns up to `n`, stalled. */
  ghost predicate StalledUpTo(rows: Table, job: Job, n: nat) {
    forall t: nat :: (TurnKey(job, t) in rows <==> 1 <= t <= n)
                     && (TurnKey(job, t) in rows ==> StalledRow(rows[TurnKey(job, t)], t))
  }

  lemma TimedOutTurn(s: LoopState, job: Job, turn: nat) returns (p: LoopState)
    requires 2 < turn <= job.maxTurns && job.session == 1 && s.goesOn && StalledUpTo(s.rows, job, turn - 1)
    requires Retryable(s.out.errors) && !s.out.consensus
    ensures PlayOn(s, job, turn, Stalling) == LoopFrom(p, job, turn + 1, Stalling)
    ensures StalledUpTo(p.rows, job, turn) && p.goesOn && Retryable(p.out.errors) && !p.out.consensus
  {
    p := Play(s, job, turn, Stalling(turn));
    assert forall e :: e in s.out.errors ==> e in p.out.errors;
    forall t: nat | t != turn
      ensures TurnKey(job, t) in p.rows <==> TurnKey(job, t) in s.rows
      ensures TurnKey(job, t) in p.rows ==> p.rows[TurnKey(job, t)] == s.rows[TurnKey(job, t)]
    {
    }
  }

  lemma {:induction false} RestTimesOut(s: LoopState, job: Job, turn: nat)
    requires 2 < turn <= job.maxTurns + 1 && job.session == 1 && s.goesOn && StalledUpTo(s.rows, job, turn - 1)
    requires Retryable(s.out.errors) && !s.out.consensus
    ensures var end := LoopFrom(s, job, turn, Stalling);
            StalledUpTo(end.rows, job, job.maxTurns) && Retryable(end.out.errors) && !end.out.consensus
    decreases job.maxTurns + 1 - turn
  {
    if turn <= job.maxTurns {
      assert TurnKey(job, turn) !in s.rows;
      var p := TimedOutTurn(s, job, turn);
      RestTimesOut(p, job, turn + 1);
    }
  }

  /** The first of the two runs stalls without a dispatch. */
  lemma FirstRunStalls(job: Job)
    requires job.stage == Codex && job.session == 1 && job.maxTurns >= 2
    ensures var (rows, out) := RunOf(map[], job, Stalling);
            StalledUpTo(rows, job, job.maxTurns) && !out.dispatched
  {
    UndecidedStage(map[], job.pr, job.sha);
    ObjectionIsNews();
    var s := Beginning(map[]);
    var p1 := Play(s, job, 1, Stalling(1));
    assert LoopFrom(s, job, 1, Stalling) == LoopFrom(p1, job, 2, Stalling);
    assert TurnError(1, TurnFailed) in p1.out.errors;
    var p2 := Play(p1, job, 2, Stalling(2));
    assert LoopFrom(p1, job, 2, Stalling) == LoopFrom(p2, job, 3, Stalling);
    RestTimesOut(p2, job, 3);
  }

  /** What the second run reads. */
  lemma StalledStage(rows: Table, job: Job)
    requires job.stage == Codex && job.session == 2 && job.maxTurns >= 2 && StalledUpTo(rows, job, job.maxTurns)
    ensures NextTurn(rows, job.pr, job.sha, Codex) == 1 && ExitOf(rows, job) == None
  {
    var ts, failed := Turns(rows, job.pr, job.sha, Codex), FailedTurns(rows, job.pr, job.sha, Codex);
    assert TurnKey(job, 1) in rows && rows[TurnKey(job, 1)].status == Failed;
    assert 1 in ts && 1 in failed;
    forall t | t in failed
      ensures t == 1
    {
      assert TurnKey(job, t) in rows && StalledRow(rows[TurnKey(job, t)], t);
    }
    forall t: nat
      ensures t !in ConsensusTurns(rows, job.pr, job.sha, Codex)
    {
      assert TurnKey(job, t) in rows ==> StalledRow(rows[TurnKey(job, t)], t);
    }
    forall k | k in rows && k.pr == job.pr && k.sha == job.sha && k.stage == Codex
      ensures rows[k].session == Some(1)
    {
      assert k == TurnKey(job, k.turn);
    }
  }

  /** The second retries turn 1, meets the completed turn 2, and ends without a dispatch; the
      stage is final. */
  lemma SecondRunEnds(rows: Table, job: Job)
    requires job.stage == Codex && job.session == 2 && job.maxTurns >= 2 && StalledUpTo(rows, job, job.maxTurns)
    ensures var (rows', out) := RunOf(rows, job, Objecting);
            Final(rows', job.pr, job.sha, job.maxTurns) && !out.dispatched
  {
    StalledStage(rows, job);
    ObjectionIsNews();
    var s := Beginning(rows);
    var p := Play(s, job, 1, Objecting(1));
    assert TurnKey(job, 1) in rows && TurnKey(job, 2) in rows && TurnKey(job, job.maxTurns) in rows;
    assert LoopFrom(s, job, 1, Objecting) == LoopFrom(p, job, 2, Objecting);
    assert !Enters(p, job, 2);
    forall t: nat
      ensures t !in FailedTurns(p.rows, job.pr, job.sha, Codex)
    {
      assert TurnKey(job, t) in rows ==> StalledRow(rows[TurnKey(job, t)], t);
    }
    assert job.maxTurns in Turns(p.rows, job.pr, job.sha, Codex);
  }

  /** CI need not be dispatched at all. For every budget of two or more turns these two runs
      leave the stage final without a dispatch, and no later run makes up for it. */
  lemma StalledRunsNeverDispatch(pr: string, sha: string, maxTurns: nat, more: seq<Firing>)
    requires maxTurns >= 2
    requires forall f :: f in more && Concerns(f, pr, sha, Codex) ==> f.job.maxTurns == maxTurns
    ensures FromScratch(map[], StalledFirings(pr, sha, maxTurns), pr, sha, maxTurns)
    ensures var firings := StalledFirings(pr, sha, maxTurns) + more;
            Final(TableAfter(map[], firings), pr, sha, maxTurns) && Dispatches(map[], firings, pr, sha) == 0
  {
    var two := StalledFirings(pr, sha, maxTurns);
    var firings := two + more;
    var r1 := RunOf(map[], two[0].job, Stalling).0;
    var r2 := RunOf(r1, two[1].job, Objecting).0;
    FirstRunStalls(two[0].job);
    assert StalledUpTo(r1, two[1].job, maxTurns) by {
      assert forall t: nat :: TurnKey(two[1].job, t) == TurnKey(two[0].job, t);
    }
    SecondRunEnds(r1, two[1].job);
    FinalStaysSilent(r2, more, pr, sha, maxTurns);
    assert firings[0] == two[0] && firings[1..] == [two[1]] + more;
    assert ([two[1]] + more)[0] == two[1] && ([two[1]] + more)[1..] == more;
    assert TableAfter(map[], firings) == TableAfter(r1, [two[1]] + more) == TableAfter(r2, more);
    assert Dispatches(map[], firings, pr, sha) == Dispatches(r1, [two[1]] + more, pr, sha);
    assert Dispatches(r1, [two[1]] + more, pr, sha) == Dispatches(r2, more, pr, sha);
    assert Turns(map[], pr, sha, Codex) == {};
  }

  /** CI is dispatched exactly once for a commit whose codex stage is final, over every
      sequence of uninterrupted runs from an empty stage, if and only if the budget is one
      turn. */
  lemma FinalMeansDispatchedExactly(pr: string, sha: string, maxTurns: nat)
    ensures (forall rows, firings ::
               FromScratch(rows, firings, pr, sha, maxTurns) && Final(TableAfter(rows, firings), pr, sha, maxTurns) ==>
                 Dispatches(rows, firings, pr, sha) == 1)
       <==> maxTurns == 1
  {
    if maxTurns == 1 {
      forall rows, firings | FromScratch(rows, firings, pr, sha, 1) && Final(TableAfter(rows, firings), pr, sha, 1)
        ensures Dispatches(rows, firings, pr, sha) == 1
      {
        assert forall t: nat :: Key(pr, sha, Codex, t) in rows ==> t in Turns(rows, pr, sha, Codex);
        SingleTurnDispatches(rows, firings, pr, sha);
      }
    } else if maxTurns == 0 {
      assert Turns(map[], pr, sha, Codex) == {};
      assert FromScratch(map[], [], pr, sha, 0) && Final(TableAfter(map[], []), pr, sha, 0);
      assert Dispatches(map[], [], pr, sha) == 0;
    } else {
      StalledRunsNeverDispatch(pr, sha, maxTurns, []);
      var firings := StalledFirings(pr, sha, maxTurns);
      assert firings + [] == firings;
    }
  }
}
