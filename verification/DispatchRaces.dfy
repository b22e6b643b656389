/** With a budget of two or more codex turns, two handlers that overlap can both dispatch CI
    for one commit: the bound of one holds for a budget of one turn only. */
module DispatchRaces {
  import opened TurnTable
  import opened Interleavings

  ghost predicate Reachable(cfg: Config, w: World) {
    exists steps :: IsRun(cfg, EMPTY, steps) && Reaches(cfg, EMPTY, steps) == w
  }

  lemma Advance(cfg: Config, w: World, i: nat, a: Action)
    requires Reachable(cfg, w) && Enabled(cfg, w, i, a)
    ensures Reachable(cfg, Next(cfg, w, i, a))
  {
    var steps :| IsRun(cfg, EMPTY, steps) && Reaches(cfg, EMPTY, steps) == w;
    RunExtends(cfg, EMPTY, steps, i, a);
  }

  /** A handler on the codex stage of `pr` and `sha`, in session 1, with nothing done yet. */
  function Fresh(pr: string, sha: string, pc: Pc): Handler {
    Handler(0, pr, sha, 1, Codex, pc, 0, false, false)
  }

  /** A webhook arrives, passes the gate, and skips the opencode stage. */
  lemma Arrives(cfg: Config, w: World, i: nat, pr: string, sha: string) returns (w': World)
    requires Reachable(cfg, w) && i !in w.handlers && PostedSessions(w.rows, pr) == {}
    ensures Reachable(cfg, w') && w' == w.(handlers := w.handlers[i := Fresh(pr, sha, Ready)])
  {
    var w1 := Next(cfg, w, i, Arrive(0, pr, sha));
    Advance(cfg, w, i, Arrive(0, pr, sha));
    Advance(cfg, w1, i, PassGate(false));
    var w2 := Next(cfg, w1, i, PassGate(false));
    assert w2 == w.(handlers := w.handlers[i := Fresh(pr, sha, Ready).(stage := Opencode)]);
    Advance(cfg, w2, i, SkipOpencode);
    w' := Next(cfg, w2, i, SkipOpencode);
  }

  /** It reads the rows and goes for turn 1. */
  lemma Begins(cfg: Config, w: World, i: nat, pr: string, sha: string) returns (w': World)
    requires Reachable(cfg, w) && i in w.handlers && w.handlers[i] == Fresh(pr, sha, Ready) && cfg.codexTurns >= 1
    requires NextTurn(w.rows, pr, sha, Codex) == 1
    requires !AtConsensus(w.rows, pr, sha, Codex) && !SessionPosted(w.rows, pr, sha, Codex, 1)
    ensures Reachable(cfg, w') && w' == w.(handlers := w.handlers[i := Fresh(pr, sha, Claiming(1))])
  {
    Advance(cfg, w, i, Begin);
    w' := Next(cfg, w, i, Begin);
  }

  /** The owner of a turn posts its review. */
  lemma Posts(cfg: Config, w: World, i: nat, h: Handler) returns (w': World)
    requires Reachable(cfg, w) && i in w.handlers && w.handlers[i] == h && h.pc.Reviewing?
    ensures Reachable(cfg, w') && w'.rows == w.rows && w'.dispatches == w.dispatches
    ensures w'.handlers == w.handlers[i := h.(pc := PostedTo(h.pc.turn))]
  {
    Advance(cfg, w, i, PostSucceeds);
    w' := Next(cfg, w, i, PostSucceeds);
  }

  /** It completes the turn with consensus and stamps it. */
  lemma Completes(cfg: Config, w: World, i: nat, h: Handler) returns (w': World)
    requires Reachable(cfg, w) && i in w.handlers && w.handlers[i] == h && h.pc.PostedTo? && h.stage == Codex
    ensures Reachable(cfg, w') && w'.dispatches == w.dispatches
    ensures w'.handlers == w.handlers[i := h.(pc := Saving(h.pc.turn, true))]
  {
    Advance(cfg, w, i, CompleteTurn(true, 0));
    var w1 := Next(cfg, w, i, CompleteTurn(true, 0));
    assert w1.handlers[i] == h.(pc := Stamping(h.pc.turn, true));
    Advance(cfg, w1, i, Stamp);
    w' := Next(cfg, w1, i, Stamp);
  }

  /** It saves the findings and dispatches CI. */
  lemma Leaves(cfg: Config, w: World, i: nat, h: Handler, turn: nat) returns (w': World)
    requires Reachable(cfg, w) && i in w.handlers && w.handlers[i] == h && h.pc == Saving(turn, true) &&
               h.stage == Codex
    ensures Reachable(cfg, w') && w'.dispatches == w.dispatches + multiset{(h.pr, h.sha)}
    ensures i in w'.handlers && w'.handlers == w.handlers[i := w'.handlers[i]]
  {
    Advance(cfg, w, i, SaveFindings(true, false));
    var w1 := Next(cfg, w, i, SaveFindings(true, false));
    assert w1.handlers[i] == h.(turnsUsed := turn, consensus := true, pc := Leaving);
    Advance(cfg, w1, i, Leave);
    w' := Next(cfg, w1, i, Leave);
  }

  /** The row of a turn that was claimed in session 1. */
  function RowAs(status: Status): Row {
    Claimed(0, 1).(status := status)
  }

  /** Turn 1 fails for the first handler, */
  lemma FirstTurnFails(cfg: Config, w: World, pr: string, sha: string) returns (w': World)
    requires cfg.codexTurns >= 2
    requires Reachable(cfg, w) && w.rows == map[] && w.handlers == map[0 := Fresh(pr, sha, Claiming(1))]
    ensures Reachable(cfg, w') && w'.dispatches == w.dispatches
    ensures w'.rows == map[Key(pr, sha, Codex, 1) := RowAs(Failed)]
    ensures w'.handlers == map[0 := Fresh(pr, sha, Claiming(2)).(turnsUsed := 1, retryable := true)]
  {
    var k := Key(pr, sha, Codex, 1);
    Advance(cfg, w, 0, Claim);
    var w1 := Next(cfg, w, 0, Claim);
    assert w1.rows == map[k := RowAs(Running)] && w1.handlers == map[0 := Fresh(pr, sha, Reviewing(1))];
    Advance(cfg, w1, 0, ReviewFails(false));
    var w2 := Next(cfg, w1, 0, ReviewFails(false));
    assert w2.handlers == map[0 := Fresh(pr, sha, Barren(1, false))];
    Advance(cfg, w2, 0, CompleteTurn(false, 0));
    w' := Next(cfg, w2, 0, CompleteTurn(false, 0));
  }

  /** and it goes on to turn 2. */
  lemma FirstGoesOn(cfg: Config, w: World, pr: string, sha: string, h: Handler) returns (w': World)
    requires Reachable(cfg, w) && w.rows == map[Key(pr, sha, Codex, 1) := RowAs(Failed)]
    requires h == Fresh(pr, sha, Claiming(2)).(turnsUsed := 1, retryable := true) && w.handlers == map[0 := h]
    ensures Reachable(cfg, w') && w'.dispatches == w.dispatches
    ensures w'.rows == map[Key(pr, sha, Codex, 1) := RowAs(Failed), Key(pr, sha, Codex, 2) := RowAs(Running)]
    ensures w'.handlers == map[0 := h.(pc := Reviewing(2))]
  {
    Advance(cfg, w, 0, Claim);
    w' := Next(cfg, w, 0, Claim);
  }

  /** The second handler resumes at turn 1 and takes it over. */
  lemma SecondTakesTurnOne(cfg: Config, w: World, pr: string, sha: string, other: Handler)
    returns (w': World)
    requires cfg.codexTurns >= 2 && Reachable(cfg, w) && w.handlers == map[0 := other]
    requires w.rows == map[Key(pr, sha, Codex, 1) := RowAs(Failed), Key(pr, sha, Codex, 2) := RowAs(Running)]
    ensures Reachable(cfg, w') && w'.dispatches == w.dispatches
    ensures w'.handlers == map[0 := other, 1 := Fresh(pr, sha, Reviewing(1))]
  {
    TableBefore(w.rows, pr, sha);
    var w1 := Arrives(cfg, w, 1, pr, sha);
    var w2 := Begins(cfg, w1, 1, pr, sha);
    assert w2.handlers == map[0 := other, 1 := Fresh(pr, sha, Claiming(1))];
    w' := TakesOver(cfg, w2, pr, sha, other);
  }

  lemma TakesOver(cfg: Config, w: World, pr: string, sha: string, other: Handler) returns (w': World)
    requires Reachable(cfg, w) && w.handlers == map[0 := other, 1 := Fresh(pr, sha, Claiming(1))]
    requires HasStatus(w.rows, Key(pr, sha, Codex, 1), Failed)
    ensures Reachable(cfg, w') && w'.dispatches == w.dispatches
    ensures w'.handlers == map[0 := other, 1 := Fresh(pr, sha, Reviewing(1))]
  {
    Advance(cfg, w, 1, Claim);
    var w1 := Next(cfg, w, 1, Claim);
    assert w1.rows == w.rows && w1.handlers == map[0 := other, 1 := Fresh(pr, sha, Resetting(1))];
    Advance(cfg, w1, 1, Action.Reset);
    w' := Next(cfg, w1, 1, Action.Reset);
  }

  /** What the second handler reads. */
  lemma TableBefore(rows: Table, pr: string, sha: string)
    requires rows == map[Key(pr, sha, Codex, 1) := RowAs(Failed), Key(pr, sha, Codex, 2) := RowAs(Running)]
    ensures PostedSessions(rows, pr) == {} && NextTurn(rows, pr, sha, Codex) == 1
    ensures !AtConsensus(rows, pr, sha, Codex) && !SessionPosted(rows, pr, sha, Codex, 1)
  {
    assert Key(pr, sha, Codex, 1).turn in Turns(rows, pr, sha, Codex);
    assert FailedTurns(rows, pr, sha, Codex) == {1};
    assert ConsensusTurns(rows, pr, sha, Codex) == {};
  }

  lemma EmptyTable(pr: string, sha: string)
    ensures PostedSessions(map[], pr) == {} && NextTurn(map[], pr, sha, Codex) == 1
    ensures !AtConsensus(map[], pr, sha, Codex) && !SessionPosted(map[], pr, sha, Codex, 1)
  {
    assert Turns(map[], pr, sha, Codex) == {};
  }

  /** Two handlers, two turns, two dispatches for the same commit. */
  lemma OverlapDispatchesTwice(cfg: Config, pr: string, sha: string) returns (steps: seq<Step>)
    requires cfg.codexTurns >= 2
    ensures IsRun(cfg, EMPTY, steps) && Reaches(cfg, EMPTY, steps).dispatches[(pr, sha)] == 2
  {
    EmptyTable(pr, sha);
    assert Reachable(cfg, EMPTY) by {
      assert IsRun(cfg, EMPTY, []) && Reaches(cfg, EMPTY, []) == EMPTY;
    }
    var w1 := Arrives(cfg, EMPTY, 0, pr, sha);
    var w2 := Begins(cfg, w1, 0, pr, sha);
    var w3 := FirstTurnFails(cfg, w2, pr, sha);
    var first := Fresh(pr, sha, Claiming(2)).(turnsUsed := 1, retryable := true);
    var w4 := FirstGoesOn(cfg, w3, pr, sha, first);
    var w5 := Posts(cfg, w4, 0, first.(pc := Reviewing(2)));
    var posted := first.(pc := PostedTo(2));
    var w6 := SecondTakesTurnOne(cfg, w5, pr, sha, posted);
    var w7 := Posts(cfg, w6, 1, Fresh(pr, sha, Reviewing(1)));
    var w8 := Completes(cfg, w7, 1, Fresh(pr, sha, PostedTo(1)));
    var w9 := Leaves(cfg, w8, 1, Fresh(pr, sha, Saving(1, true)), 1);
    var w10 := Completes(cfg, w9, 0, posted);
    var w11 := Leaves(cfg, w10, 0, first.(pc := Saving(2, true)), 2);
    steps :| IsRun(cfg, EMPTY, steps) && Reaches(cfg, EMPTY, steps) == w11;
  }

  /** Over all interleavings CI is dispatched at most once for a commit exactly when the
      budget is a single codex turn. */
  lemma CiOnceExactly(cfg: Config, pr: string, sha: string)
    requires cfg.codexTurns >= 1
    ensures (forall steps :: IsRun(cfg, EMPTY, steps) ==> Reaches(cfg, EMPTY, steps).dispatches[(pr, sha)] <= 1)
       <==> cfg.codexTurns == 1
  {
    if cfg.codexTurns == 1 {
      forall steps | IsRun(cfg, EMPTY, steps)
        ensures Reaches(cfg, EMPTY, steps).dispatches[(pr, sha)] <= 1
      {
        ReachableWorlds(cfg, steps, pr, sha, Codex);
      }
    } else {
      var steps := OverlapDispatchesTwice(cfg, pr, sha);
    }
  }
}
