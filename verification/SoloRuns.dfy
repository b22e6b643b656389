/** The two models of the review loop agree: a handler that nobody interrupts takes, statement
    by statement, the table, the posts and the dispatch to where one run of the loop does. */
module SoloRuns {
  import opened Prelude
  import opened TurnTable
  import opened Interleavings
  import Reviews
  import Loops = ReviewLoops

  /** The job that a handler works on in its stage. */
  function JobOf(cfg: Config, h: Handler): Loops.Job {
    Loops.Job(h.project, h.pr, h.sha, h.stage, h.session,
              match h.stage case Codex => cfg.codexTurns case Opencode => cfg.opencodeTurns)
  }

  predicate Alone(steps: seq<Step>, i: nat) {
    forall s :: s in steps ==> s.handler == i
  }

  /** Steps of handler `i` alone lead from `w` to `w'`. */
  ghost predicate Leads(cfg: Config, w: World, i: nat, w': World) {
    exists steps :: Alone(steps, i) && IsRun(cfg, w, steps) && Reaches(cfg, w, steps) == w'
  }

  /** `w` with another table, another state of handler `i` and other posts. */
  function Here(w: World, i: nat, rows: Table, h: Handler, posts: multiset<Key>): World {
    World(rows, w.handlers[i := h], posts, w.dispatches)
  }

  lemma LeadsOn(cfg: Config, w: World, i: nat, w': World, a: Action)
    requires Leads(cfg, w, i, w') && Enabled(cfg, w', i, a)
    ensures Leads(cfg, w, i, Next(cfg, w', i, a))
  {
    var steps :| Alone(steps, i) && IsRun(cfg, w, steps) && Reaches(cfg, w, steps) == w';
    RunExtends(cfg, w, steps, i, a);
    assert Alone(steps + [Step(i, a)], i);
  }

  /** A step that neither posts nor dispatches. */
  lemma QuietStep(cfg: Config, w: World, i: nat, rows: Table, h: Handler, posts: multiset<Key>, a: Action)
    requires Leads(cfg, w, i, Here(w, i, rows, h, posts)) && Enabled(cfg, Here(w, i, rows, h, posts), i, a)
    requires !a.Arrive? && !a.PostSucceeds? && !a.Leave?
    ensures Leads(cfg, w, i, Here(w, i, Write(rows, h, a), Move(cfg, Here(w, i, rows, h, posts), h, a), posts))
  {
    var w' := Here(w, i, rows, h, posts);
    LeadsOn(cfg, w, i, w', a);
    assert Next(cfg, w', i, a) == Here(w, i, Write(rows, h, a), Move(cfg, w', h, a), posts);
  }

  lemma PostingStep(cfg: Config, w: World, i: nat, rows: Table, h: Handler, posts: multiset<Key>)
    requires Leads(cfg, w, i, Here(w, i, rows, h, posts)) && h.pc.Reviewing?
    ensures Leads(cfg, w, i, Here(w, i, rows, h.(pc := PostedTo(h.pc.turn)), posts + multiset{KeyAt(h, h.pc.turn)}))
  {
    var w' := Here(w, i, rows, h, posts);
    LeadsOn(cfg, w, i, w', PostSucceeds);
    assert Next(cfg, w', i, PostSucceeds)
        == Here(w, i, rows, h.(pc := PostedTo(h.pc.turn)), posts + multiset{KeyAt(h, h.pc.turn)});
  }

  /** A turn that is missing or failed is won, by insertion or by reset. */
  lemma WinsTurn(cfg: Config, w: World, i: nat, rows: Table, h: Handler, posts: multiset<Key>)
    requires Leads(cfg, w, i, Here(w, i, rows, h, posts)) && h.pc.Claiming?
    ensures var k := KeyAt(h, h.pc.turn);
            if CanWin(rows, k) then
              Leads(cfg, w, i, Here(w, i, Loops.Win(rows, JobOf(cfg, h), k), h.(pc := Reviewing(h.pc.turn)), posts))
            else Leads(cfg, w, i, Here(w, i, rows, h.(pc := Leaving), posts))
  {
    QuietStep(cfg, w, i, rows, h, posts, Claim);
    if KeyAt(h, h.pc.turn) in rows {
      QuietStep(cfg, w, i, rows, h.(pc := Resetting(h.pc.turn)), posts, Action.Reset);
    }
  }

  /** The handler after a turn that left the loop in state `p`. */
  function HandlerAfter(cfg: Config, h: Handler, turn: nat, p: Loops.LoopState): Handler {
    if p.out.crashed then h.(pc := Gone)
    else
      var h' := h.(turnsUsed := turn, consensus := p.out.consensus, retryable := Loops.Retryable(p.out.errors));
      if p.goesOn then Continue(cfg, h', turn) else h'.(pc := Leaving)
  }

  /** The posts a run has added for a handler. */
  function PostsOf(h: Handler, turns: seq<nat>): multiset<Key> {
    if turns == [] then multiset{}
    else PostsOf(h, turns[..|turns| - 1]) + multiset{KeyAt(h, turns[|turns| - 1])}
  }

  lemma PostsMore(h: Handler, turns: seq<nat>, turn: nat)
    ensures PostsOf(h, turns + [turn]) == PostsOf(h, turns) + multiset{KeyAt(h, turn)}
  {
    assert (turns + [turn])[..|turns|] == turns;
  }

  /** The handler stands before turn `turn` where the loop does. */
  ghost predicate InStep(cfg: Config, w: World, i: nat, h: Handler, s: Loops.LoopState, turn: nat) {
    && h.turnsUsed == s.out.turnsUsed && !h.consensus && !s.out.consensus && !s.out.crashed
    && h.retryable == Loops.Retryable(s.out.errors)
    && Leads(cfg, w, i, Here(w, i, s.rows, h.(pc := Claiming(turn)), w.posts + PostsOf(h, s.out.posts)))
  }

  lemma RetryableMore(errors: seq<Loops.TurnError>, e: Loops.TurnError)
    ensures Loops.Retryable(errors + [e]) <==> Loops.Retryable(errors) || e.kind != Loops.TurnTimedOut
  {
    assert forall x :: x in errors + [e] <==> x in errors || x == e;
  }

  ghost predicate PlaysTo(cfg: Config, w: World, i: nat, h: Handler, turn: nat, p: Loops.LoopState) {
    Leads(cfg, w, i, Here(w, i, p.rows, HandlerAfter(cfg, h, turn, p), w.posts + PostsOf(h, p.out.posts)))
  }

  /** The table and the outcome after a turn without a review. */
  lemma NoReviewState(cfg: Config, h: Handler, s: Loops.LoopState, turn: nat, event: Loops.TurnEvent)
    requires event.NoReview? && s.goesOn && !s.out.crashed && !s.out.consensus
    ensures var k, p := KeyAt(h, turn), Loops.Play(s, JobOf(cfg, h), turn, event);
            var won := Loops.Win(s.rows, JobOf(cfg, h), k);
            && p.rows == Complete(won, k, if event.timedOut then TimedOut else Failed, None, false)
            && p.goesOn && !p.out.crashed && !p.out.consensus && p.out.posts == s.out.posts
            && (Loops.Retryable(p.out.errors) <==> Loops.Retryable(s.out.errors) || !event.timedOut)
  {
    RetryableMore(s.out.errors, Loops.TurnError(turn, if event.timedOut then Loops.TurnTimedOut else Loops.TurnFailed));
  }

  lemma NoReviewTurn(cfg: Config, w: World, i: nat, h: Handler, s: Loops.LoopState, turn: nat, event: Loops.TurnEvent)
    requires InStep(cfg, w, i, h, s, turn) && s.goesOn && CanWin(s.rows, KeyAt(h, turn)) && event.NoReview?
    ensures PlaysTo(cfg, w, i, h, turn, Loops.Play(s, JobOf(cfg, h), turn, event))
  {
    var k, posts := KeyAt(h, turn), w.posts + PostsOf(h, s.out.posts);
    var won := Loops.Win(s.rows, JobOf(cfg, h), k);
    WinsTurn(cfg, w, i, s.rows, h.(pc := Claiming(turn)), posts);
    QuietStep(cfg, w, i, won, h.(pc := Reviewing(turn)), posts, ReviewFails(event.timedOut));
    QuietStep(cfg, w, i, won, h.(pc := Barren(turn, event.timedOut)), posts, CompleteTurn(false, 0));
    NoReviewState(cfg, h, s, turn, event);
  }

  lemma PostLostTurn(cfg: Config, w: World, i: nat, h: Handler, s: Loops.LoopState, turn: nat, event: Loops.TurnEvent)
    requires InStep(cfg, w, i, h, s, turn) && s.goesOn && CanWin(s.rows, KeyAt(h, turn)) && event.PostLost?
    ensures PlaysTo(cfg, w, i, h, turn, Loops.Play(s, JobOf(cfg, h), turn, event))
  {
    var k, posts := KeyAt(h, turn), w.posts + PostsOf(h, s.out.posts);
    var won := Loops.Win(s.rows, JobOf(cfg, h), k);
    WinsTurn(cfg, w, i, s.rows, h.(pc := Claiming(turn)), posts);
    QuietStep(cfg, w, i, won, h.(pc := Reviewing(turn)), posts, PostFails);
    QuietStep(cfg, w, i, won, h.(pc := Unposted(turn)), posts, CompleteTurn(false, |event.review.findings|));
    RetryableMore(s.out.errors, Loops.TurnError(turn, Loops.PostFailed));
  }

  lemma CompletingStep(cfg: Config, w: World, i: nat, rows: Table, h: Handler, posts: multiset<Key>, turn: nat,
                       agreed: bool, count: nat)
    requires Leads(cfg, w, i, Here(w, i, rows, h.(pc := PostedTo(turn)), posts))
    ensures Leads(cfg, w, i, Here(w, i, Complete(rows, KeyAt(h, turn), Completed, Some(count), agreed),
                                  h.(pc := Stamping(turn, agreed)), posts))
  {
    QuietStep(cfg, w, i, rows, h.(pc := PostedTo(turn)), posts, CompleteTurn(agreed, count));
  }

  lemma StampingStep(cfg: Config, w: World, i: nat, rows: Table, h: Handler, posts: multiset<Key>, turn: nat,
                     agreed: bool)
    requires Leads(cfg, w, i, Here(w, i, rows, h.(pc := Stamping(turn, agreed)), posts))
    ensures Leads(cfg, w, i, Here(w, i, MarkPosted(rows, KeyAt(h, turn)), h.(pc := Saving(turn, agreed)), posts))
  {
    QuietStep(cfg, w, i, rows, h.(pc := Stamping(turn, agreed)), posts, Stamp);
  }

  lemma CrashingStep(cfg: Config, w: World, i: nat, rows: Table, h: Handler, posts: multiset<Key>)
    requires Leads(cfg, w, i, Here(w, i, rows, h, posts)) && h.pc != Gone
    ensures Leads(cfg, w, i, Here(w, i, rows, h.(pc := Gone), posts))
  {
    QuietStep(cfg, w, i, rows, h, posts, Crash);
  }

  /** A post that succeeds. */
  lemma PostsTurn(cfg: Config, w: World, i: nat, h: Handler, s: Loops.LoopState, turn: nat)
    requires InStep(cfg, w, i, h, s, turn) && CanWin(s.rows, KeyAt(h, turn))
    ensures Leads(cfg, w, i, Here(w, i, Loops.Win(s.rows, JobOf(cfg, h), KeyAt(h, turn)), h.(pc := PostedTo(turn)),
                                  w.posts + PostsOf(h, s.out.posts + [turn])))
  {
    var k, posts := KeyAt(h, turn), w.posts + PostsOf(h, s.out.posts);
    var won := Loops.Win(s.rows, JobOf(cfg, h), k);
    WinsTurn(cfg, w, i, s.rows, h.(pc := Claiming(turn)), posts);
    PostingStep(cfg, w, i, won, h.(pc := Reviewing(turn)), posts);
    PostsMore(h, s.out.posts, turn);
    assert w.posts + PostsOf(h, s.out.posts + [turn]) == posts + multiset{k};
  }

  lemma SavingStep(cfg: Config, w: World, i: nat, rows: Table, h: Handler, posts: multiset<Key>, turn: nat,
                   agreed: bool, saving: Loops.Saving)
    requires Leads(cfg, w, i, Here(w, i, rows, h.(pc := Saving(turn, agreed)), posts))
    ensures var h' := h.(turnsUsed := turn);
            Leads(cfg, w, i, Here(w, i, Loops.Save(rows, KeyAt(h, turn), saving),
              if agreed then h'.(consensus := true, pc := Leaving) else Continue(cfg, h', turn), posts))
  {
    QuietStep(cfg, w, i, rows, h.(pc := Saving(turn, agreed)), posts,
              SaveFindings(saving == Loops.Saved, saving == Loops.Stamped));
  }

  /** The table and the outcome after a turn that posted. */
  lemma PostedState(cfg: Config, h: Handler, s: Loops.LoopState, turn: nat, event: Loops.TurnEvent)
    requires event.Posted? && !s.out.crashed
    ensures var k, p := KeyAt(h, turn), Loops.Play(s, JobOf(cfg, h), turn, event);
            var agreed := Reviews.ReachedConsensus(event.review, s.prior);
            var won := Loops.Win(s.rows, JobOf(cfg, h), k);
            && p.rows == Loops.Save(MarkPosted(Complete(won, k, Completed, Some(|event.review.findings|), agreed), k),
                                    k, event.saving)
            && p.goesOn == !agreed && !p.out.crashed
            && p.out == s.out.(turnsUsed := turn, consensus := agreed, posts := s.out.posts + [turn])
  {
  }

  lemma PostedTurn(cfg: Config, w: World, i: nat, h: Handler, s: Loops.LoopState, turn: nat, event: Loops.TurnEvent)
    requires InStep(cfg, w, i, h, s, turn) && s.goesOn && CanWin(s.rows, KeyAt(h, turn)) && event.Posted?
    ensures PlaysTo(cfg, w, i, h, turn, Loops.Play(s, JobOf(cfg, h), turn, event))
  {
    var k, posts := KeyAt(h, turn), w.posts + PostsOf(h, s.out.posts + [turn]);
    var agreed, count := Reviews.ReachedConsensus(event.review, s.prior), |event.review.findings|;
    var won := Loops.Win(s.rows, JobOf(cfg, h), k);
    var done := Complete(won, k, Completed, Some(count), agreed);
    CompletesTurn(cfg, w, i, h, s, turn, agreed, count);
    StampingStep(cfg, w, i, done, h, posts, turn, agreed);
    SavingStep(cfg, w, i, MarkPosted(done, k), h, posts, turn, agreed, event.saving);
    PostedState(cfg, h, s, turn, event);
  }

  lemma AbortedBefore(cfg: Config, w: World, i: nat, h: Handler, s: Loops.LoopState, turn: nat, event: Loops.TurnEvent)
    requires InStep(cfg, w, i, h, s, turn) && s.goesOn && CanWin(s.rows, KeyAt(h, turn))
    requires event.Aborted? && event.at == Loops.BeforePost
    ensures PlaysTo(cfg, w, i, h, turn, Loops.Play(s, JobOf(cfg, h), turn, event))
  {
    var posts := w.posts + PostsOf(h, s.out.posts);
    WinsTurn(cfg, w, i, s.rows, h.(pc := Claiming(turn)), posts);
    CrashingStep(cfg, w, i, Loops.Win(s.rows, JobOf(cfg, h), KeyAt(h, turn)), h.(pc := Reviewing(turn)), posts);
  }

  lemma AbortedAtPost(cfg: Config, w: World, i: nat, h: Handler, s: Loops.LoopState, turn: nat, event: Loops.TurnEvent)
    requires InStep(cfg, w, i, h, s, turn) && s.goesOn && CanWin(s.rows, KeyAt(h, turn))
    requires event.Aborted? && event.at == Loops.AfterPost
    ensures PlaysTo(cfg, w, i, h, turn, Loops.Play(s, JobOf(cfg, h), turn, event))
  {
    PostsTurn(cfg, w, i, h, s, turn);
    CrashingStep(cfg, w, i, Loops.Win(s.rows, JobOf(cfg, h), KeyAt(h, turn)), h.(pc := PostedTo(turn)),
                 w.posts + PostsOf(h, s.out.posts + [turn]));
  }

  /** A turn that posted, completed. */
  lemma CompletesTurn(cfg: Config, w: World, i: nat, h: Handler, s: Loops.LoopState, turn: nat, agreed: bool,
                      count: nat)
    requires InStep(cfg, w, i, h, s, turn) && CanWin(s.rows, KeyAt(h, turn))
    ensures var k := KeyAt(h, turn);
            var done := Complete(Loops.Win(s.rows, JobOf(cfg, h), k), k, Completed, Some(count), agreed);
            Leads(cfg, w, i, Here(w, i, done, h.(pc := Stamping(turn, agreed)),
                                  w.posts + PostsOf(h, s.out.posts + [turn])))
  {
    PostsTurn(cfg, w, i, h, s, turn);
    CompletingStep(cfg, w, i, Loops.Win(s.rows, JobOf(cfg, h), KeyAt(h, turn)), h,
                   w.posts + PostsOf(h, s.out.posts + [turn]), turn, agreed, count);
  }

  /** The table and the outcome after a turn that crashed once it was completed. */
  lemma AbortedState(cfg: Config, h: Handler, s: Loops.LoopState, turn: nat, event: Loops.TurnEvent)
    requires event.Aborted? && (event.at == Loops.AfterComplete || event.at == Loops.AfterMark)
    ensures var k, p := KeyAt(h, turn), Loops.Play(s, JobOf(cfg, h), turn, event);
            var agreed := Reviews.ReachedConsensus(event.review, s.prior);
            var won := Loops.Win(s.rows, JobOf(cfg, h), k);
            var done := Complete(won, k, Completed, Some(|event.review.findings|), agreed);
            && p.rows == (if event.at == Loops.AfterComplete then done else MarkPosted(done, k))
            && p.out.crashed && p.out.posts == s.out.posts + [turn]
  {
  }

  lemma AbortedLate(cfg: Config, w: World, i: nat, h: Handler, s: Loops.LoopState, turn: nat, event: Loops.TurnEvent)
    requires InStep(cfg, w, i, h, s, turn) && CanWin(s.rows, KeyAt(h, turn))
    requires event.Aborted? && (event.at == Loops.AfterComplete || event.at == Loops.AfterMark)
    ensures PlaysTo(cfg, w, i, h, turn, Loops.Play(s, JobOf(cfg, h), turn, event))
  {
    var k, posts := KeyAt(h, turn), w.posts + PostsOf(h, s.out.posts + [turn]);
    var agreed, count := Reviews.ReachedConsensus(event.review, s.prior), |event.review.findings|;
    var done := Complete(Loops.Win(s.rows, JobOf(cfg, h), k), k, Completed, Some(count), agreed);
    AbortedState(cfg, h, s, turn, event);
    CompletesTurn(cfg, w, i, h, s, turn, agreed, count);
    if event.at == Loops.AfterMark {
      StampingStep(cfg, w, i, done, h, posts, turn, agreed);
      CrashingStep(cfg, w, i, MarkPosted(done, k), h.(pc := Saving(turn, agreed)), posts);
    } else {
      CrashingStep(cfg, w, i, done, h.(pc := Stamping(turn, agreed)), posts);
    }
  }

  lemma PlayedTurn(cfg: Config, w: World, i: nat, h: Handler, s: Loops.LoopState, turn: nat, event: Loops.TurnEvent)
    requires InStep(cfg, w, i, h, s, turn) && s.goesOn && CanWin(s.rows, KeyAt(h, turn))
    ensures PlaysTo(cfg, w, i, h, turn, Loops.Play(s, JobOf(cfg, h), turn, event))
  {
    match event
    case NoReview(_) => NoReviewTurn(cfg, w, i, h, s, turn, event);
    case PostLost(_) => PostLostTurn(cfg, w, i, h, s, turn, event);
    case Posted(_, _) => PostedTurn(cfg, w, i, h, s, turn, event);
    case Aborted(_, at) =>
      match at {
        case BeforePost => AbortedBefore(cfg, w, i, h, s, turn, event);
        case AfterPost => AbortedAtPost(cfg, w, i, h, s, turn, event);
        case _ => AbortedLate(cfg, w, i, h, s, turn, event);
      }
  }

  /** Where the handler is when the loop has ended in state `end`. */
  ghost predicate Ended(cfg: Config, w: World, i: nat, h: Handler, end: Loops.LoopState) {
    var posts := w.posts + PostsOf(h, end.out.posts);
    var h' := h.(turnsUsed := end.out.turnsUsed, consensus := end.out.consensus,
                 retryable := Loops.Retryable(end.out.errors), pc := Leaving);
    if end.out.crashed then exists g: Handler :: g.pc == Gone && Leads(cfg, w, i, Here(w, i, end.rows, g, posts))
    else Leads(cfg, w, i, Here(w, i, end.rows, h', posts))
  }

  /** The same handler, at another point of its loop. */
  predicate SameRun(h: Handler, h': Handler) {
    h' == h.(turnsUsed := h'.turnsUsed, consensus := h'.consensus, retryable := h'.retryable)
  }

  lemma SameJob(cfg: Config, h: Handler, h': Handler)
    requires SameRun(h, h')
    ensures JobOf(cfg, h') == JobOf(cfg, h) && MaxTurns(cfg, h'.stage) == MaxTurns(cfg, h.stage)
  {
  }

  /** Where the handler goes on after a turn, */
  lemma GoesOnAfter(cfg: Config, w: World, i: nat, h: Handler, turn: nat, p: Loops.LoopState) returns (h': Handler)
    requires PlaysTo(cfg, w, i, h, turn, p) && turn < MaxTurns(cfg, h.stage)
    requires p.goesOn && !p.out.consensus && !p.out.crashed && p.out.turnsUsed == turn
    ensures SameRun(h, h') && InStep(cfg, w, i, h', p, turn + 1)
  {
    h' := h.(turnsUsed := turn, consensus := false, retryable := Loops.Retryable(p.out.errors));
    SamePosts(h, h', p.out.posts);
  }

  /** or ends. */
  lemma EndsAfter(cfg: Config, w: World, i: nat, h: Handler, turn: nat, p: Loops.LoopState)
    requires PlaysTo(cfg, w, i, h, turn, p)
    requires !p.out.crashed ==> p.out.turnsUsed == turn
    requires p.goesOn ==> !p.out.consensus && !p.out.crashed && turn == MaxTurns(cfg, h.stage)
    ensures Ended(cfg, w, i, h, p)
  {
  }

  lemma {:induction false} SamePosts(h: Handler, h': Handler, turns: seq<nat>)
    requires h.pr == h'.pr && h.sha == h'.sha && h.stage == h'.stage
    ensures PostsOf(h, turns) == PostsOf(h', turns)
  {
    if turns != [] {
      SamePosts(h, h', turns[..|turns| - 1]);
    }
  }

  /** One turn of the loop, followed by the handler. */
  lemma PlaysOn(cfg: Config, w: World, i: nat, h: Handler, job: Loops.Job, s: Loops.LoopState, turn: nat,
                env: nat -> Loops.TurnEvent, end: Loops.LoopState)
    returns (p: Loops.LoopState)
    requires job == JobOf(cfg, h) && InStep(cfg, w, i, h, s, turn) && s.goesOn && CanWin(s.rows, KeyAt(h, turn))
    requires turn <= job.maxTurns && end == Loops.LoopFrom(s, job, turn, env)
    ensures PlaysTo(cfg, w, i, h, turn, p)
    ensures end == Loops.LoopFrom(p, job, turn + 1, env)
    ensures !p.goesOn || turn == job.maxTurns ==> end == p
    ensures !p.out.crashed ==> p.out.turnsUsed == turn
    ensures p.goesOn ==> !p.out.consensus && !p.out.crashed
  {
    p := Loops.Play(s, job, turn, env(turn));
    PlayedTurn(cfg, w, i, h, s, turn, env(turn));
  }

  /** The handler that meets a turn it cannot win leaves, as the loop does. */
  lemma StopsShort(cfg: Config, w: World, i: nat, h: Handler, s: Loops.LoopState, turn: nat,
                   env: nat -> Loops.TurnEvent)
    requires InStep(cfg, w, i, h, s, turn) && s.goesOn && !CanWin(s.rows, KeyAt(h, turn))
    ensures Loops.LoopFrom(s, JobOf(cfg, h), turn, env) == s && Ended(cfg, w, i, h, s)
  {
    WinsTurn(cfg, w, i, s.rows, h.(pc := Claiming(turn)), w.posts + PostsOf(h, s.out.posts));
  }

  lemma EndedSame(cfg: Config, w: World, i: nat, h: Handler, h': Handler, end: Loops.LoopState)
    requires SameRun(h, h') && Ended(cfg, w, i, h', end)
    ensures Ended(cfg, w, i, h, end)
  {
    SamePosts(h, h', end.out.posts);
  }

  /** The handler follows the loop from any turn to its end. */
  lemma {:induction false} FollowsLoop(cfg: Config, w: World, i: nat, h: Handler, job: Loops.Job, s: Loops.LoopState,
                                       turn: nat, env: nat -> Loops.TurnEvent, end: Loops.LoopState)
    requires job == JobOf(cfg, h) && job.maxTurns == MaxTurns(cfg, h.stage) && turn <= job.maxTurns
    requires InStep(cfg, w, i, h, s, turn) && s.goesOn && end == Loops.LoopFrom(s, job, turn, env)
    ensures Ended(cfg, w, i, h, end)
    decreases job.maxTurns - turn
  {
    if CanWin(s.rows, KeyAt(h, turn)) {
      var p := PlaysOn(cfg, w, i, h, job, s, turn, env, end);
      if p.goesOn && turn < job.maxTurns {
        var h' := GoesOnAfter(cfg, w, i, h, turn, p);
        SameJob(cfg, h, h');
        FollowsLoop(cfg, w, i, h', job, p, turn + 1, env, end);
        EndedSame(cfg, w, i, h, h', end);
      } else {
        EndsAfter(cfg, w, i, h, turn, p);
      }
    } else {
      StopsShort(cfg, w, i, h, s, turn, env);
    }
  }

  /** The world after handler `i` has finished its stage as a run with this table and outcome
      would: it goes on to codex after opencode, and is gone after codex or a crash. */
  ghost predicate FinishesAs(cfg: Config, w: World, i: nat, rows: Table, out: Loops.Outcome, w': World)
    requires i in w.handlers
  {
    var h := w.handlers[i];
    && w'.rows == rows
    && w'.posts == w.posts + PostsOf(h, out.posts)
    && w'.dispatches == w.dispatches + (if out.dispatched then multiset{(h.pr, h.sha)} else multiset{})
    && i in w'.handlers && w'.handlers == w.handlers[i := w'.handlers[i]]
    && if out.crashed || h.stage == Codex then w'.handlers[i].pc == Gone
       else w'.handlers[i] == h.(stage := Codex)
  }

  /** The end of a loop, and the dispatch. */
  lemma LeavesAs(cfg: Config, w: World, i: nat, end: Loops.LoopState) returns (w': World)
    requires i in w.handlers && w.handlers[i].pc == Ready && Ended(cfg, w, i, w.handlers[i], end)
    requires w.handlers[i] == w.handlers[i].(turnsUsed := 0, consensus := false, retryable := false)
    ensures Leads(cfg, w, i, w')
    ensures FinishesAs(cfg, w, i, end.rows,
              end.out.(dispatched := Loops.ShouldDispatch(JobOf(cfg, w.handlers[i]), end.out)), w')
  {
    var h := w.handlers[i];
    var posts := w.posts + PostsOf(h, end.out.posts);
    if end.out.crashed {
      var g: Handler :| g.pc == Gone && Leads(cfg, w, i, Here(w, i, end.rows, g, posts));
      w' := Here(w, i, end.rows, g, posts);
    } else {
      var h' := h.(turnsUsed := end.out.turnsUsed, consensus := end.out.consensus,
                   retryable := Loops.Retryable(end.out.errors), pc := Leaving);
      var last := Here(w, i, end.rows, h', posts);
      LeadsOn(cfg, w, i, last, Leave);
      w' := Next(cfg, last, i, Leave);
      assert w'.handlers[i] == NextStage(h');
      assert w'.handlers == w.handlers[i := w'.handlers[i]];
    }
  }

  lemma StopsIsExit(cfg: Config, w: World, h: Handler)
    ensures Stops(cfg, w, h) <==> Loops.ExitOf(w.rows, JobOf(cfg, h)).Some?
  {
  }

  /** A handler about to begin a stage, left alone, does what a run of the loop does: for
      every behaviour of the reviewer, of GitHub and of exceptions, steps of this handler alone
      lead to the table, the posts and the dispatch of that run. */
  lemma SoloHandlerRuns(cfg: Config, w: World, i: nat, env: nat -> Loops.TurnEvent) returns (w': World)
    requires i in w.handlers && w.handlers[i].pc == Ready
    requires w.handlers[i] == w.handlers[i].(turnsUsed := 0, consensus := false, retryable := false)
    ensures Leads(cfg, w, i, w')
    ensures var (rows, out) := Loops.RunOf(w.rows, JobOf(cfg, w.handlers[i]), env);
            FinishesAs(cfg, w, i, rows, out, w')
  {
    var h := w.handlers[i];
    var job := JobOf(cfg, h);
    StopsIsExit(cfg, w, h);
    assert Here(w, i, w.rows, h, w.posts) == w;
    LeadsSelf(cfg, w, i);
    QuietStep(cfg, w, i, w.rows, h, w.posts, Begin);
    if Stops(cfg, w, h) {
      w' := Here(w, i, w.rows, NextStage(h), w.posts);
    } else {
      var start := NextTurn(w.rows, h.pr, h.sha, h.stage);
      var s := Loops.Beginning(w.rows);
      assert w.posts + PostsOf(h, []) == w.posts;
      assert h.(pc := Claiming(start)) == h.(pc := Claiming(start), turnsUsed := 0);
      var end := Loops.LoopFrom(s, job, start, env);
      FollowsLoop(cfg, w, i, h, job, s, start, env, end);
      w' := LeavesAs(cfg, w, i, end);
    }
  }

  // ---- A whole webhook ------------------------------------------------------------

  lemma {:induction false} RunJoins(cfg: Config, w: World, a: seq<Step>, b: seq<Step>)
    requires IsRun(cfg, w, a) && IsRun(cfg, Reaches(cfg, w, a), b)
    ensures IsRun(cfg, w, a + b) && Reaches(cfg, w, a + b) == Reaches(cfg, Reaches(cfg, w, a), b)
    decreases |a|
  {
    if a == [] {
      assert a + b == b;
    } else {
      assert (a + b)[0] == a[0] && (a + b)[1..] == a[1..] + b;
      RunJoins(cfg, Next(cfg, w, a[0].handler, a[0].action), a[1..], b);
    }
  }

  lemma LeadsJoin(cfg: Config, w: World, i: nat, w1: World, w2: World)
    requires Leads(cfg, w, i, w1) && Leads(cfg, w1, i, w2)
    ensures Leads(cfg, w, i, w2)
  {
    var a :| Alone(a, i) && IsRun(cfg, w, a) && Reaches(cfg, w, a) == w1;
    var b :| Alone(b, i) && IsRun(cfg, w1, b) && Reaches(cfg, w1, b) == w2;
    RunJoins(cfg, w, a, b);
    assert Alone(a + b, i);
  }

  lemma LeadsSelf(cfg: Config, w: World, i: nat)
    ensures Leads(cfg, w, i, w)
  {
    assert Alone([], i) && IsRun(cfg, w, []) && Reaches(cfg, w, []) == w;
  }

  /** A handler that has passed the gate. */
  function Admitted(project: nat, pr: string, sha: string, session: nat): Handler {
    Handler(project, pr, sha, session, Opencode, Ready, 0, false, false)
  }

  /** A webhook arrives and meets the gate. */
  lemma MeetsGate(cfg: Config, w: World, i: nat, project: nat, pr: string, sha: string, approved: bool)
    returns (w': World)
    requires i !in w.handlers
    ensures Leads(cfg, w, i, w')
    ensures i in w'.handlers && w' == w.(handlers := w.handlers[i := w'.handlers[i]])
    ensures if CapReached(w.rows, pr, approved) then w'.handlers[i].pc == Gone
            else w'.handlers[i] == Admitted(project, pr, sha, |PostedSessions(w.rows, pr)| + 1)
  {
    LeadsSelf(cfg, w, i);
    LeadsOn(cfg, w, i, w, Arrive(project, pr, sha));
    var w1 := Next(cfg, w, i, Arrive(project, pr, sha));
    GateExactly(cfg, w1, i, approved);
    LeadsOn(cfg, w, i, w1, PassGate(approved));
    w' := Next(cfg, w1, i, PassGate(approved));
    assert w' == w.(handlers := w.handlers[i := w'.handlers[i]]);
  }

  /** The table, the two outcomes and what has been posted and dispatched. */
  ghost predicate EndsAs(w: World, rows: Table, h: Handler, first: Loops.Outcome, second: Loops.Outcome, w': World) {
    && w'.rows == rows
    && w'.posts == w.posts + PostsOf(h, first.posts) + PostsOf(h.(stage := Codex), second.posts)
    && w'.dispatches == w.dispatches + (if second.dispatched then multiset{(h.pr, h.sha)} else multiset{})
  }

  /** The opencode stage never dispatches. */
  lemma OpencodeDispatchesNothing(rows: Table, job: Loops.Job, env: nat -> Loops.TurnEvent)
    requires job.stage == Opencode
    ensures !Loops.RunOf(rows, job, env).1.dispatched
  {
  }

  /** A webhook that is handled alone does one of two things. At the cap it changes nothing.
      Otherwise its session number is one more than the sessions that have posted, and it
      makes a run of the opencode loop and, unless that crashed, one of the codex loop. */
  lemma SoloWebhook(cfg: Config, w: World, i: nat, project: nat, pr: string, sha: string, approved: bool,
                    env: nat -> Loops.TurnEvent, env': nat -> Loops.TurnEvent)
    returns (w': World)
    requires i !in w.handlers
    ensures Leads(cfg, w, i, w') && i in w'.handlers && w'.handlers[i].pc == Gone
    ensures var session := |PostedSessions(w.rows, pr)| + 1;
            var h := Admitted(project, pr, sha, session);
            var job1 := Loops.Job(project, pr, sha, Opencode, session, cfg.opencodeTurns);
            var job2 := Loops.Job(project, pr, sha, Codex, session, cfg.codexTurns);
            var (rows1, out1) := Loops.RunOf(w.rows, job1, env);
            var (rows2, out2) := Loops.RunOf(rows1, job2, env');
            if CapReached(w.rows, pr, approved) then EndsAs(w, w.rows, h, Loops.QUIET, Loops.QUIET, w')
            else if out1.crashed then EndsAs(w, rows1, h, out1, Loops.QUIET, w')
            else EndsAs(w, rows2, h, out1, out2, w')
  {
    w' := MeetsGate(cfg, w, i, project, pr, sha, approved);
    if !CapReached(w.rows, pr, approved) {
      var w1 := w';
      var h := w1.handlers[i];
      var job := JobOf(cfg, h);
      OpencodeDispatchesNothing(w.rows, job, env);
      var w2 := SoloHandlerRuns(cfg, w1, i, env);
      LeadsJoin(cfg, w, i, w1, w2);
      w' := w2;
      var out1 := Loops.RunOf(w.rows, job, env).1;
      if !out1.crashed {
        var w3 := SoloHandlerRuns(cfg, w2, i, env');
        LeadsJoin(cfg, w, i, w2, w3);
        w' := w3;
      }
    }
  }
}
