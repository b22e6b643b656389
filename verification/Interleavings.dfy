/** Any number of webhook handlers over one turn table, interleaved statement by statement.

    A handler passes the cap gate, then runs the opencode loop (or skips it) and the codex
    loop. Every database statement, reviewer call and GitHub post is one atomic step, and a
    handler may crash between any two steps, leaving its row as it is. */
module Interleavings {
  import opened TurnTable
  import opened Prelude

  /** Where a handler is inside a loop. `turn` is the turn at hand. */
  datatype Pc =
    | AtGate                                  // about to read the posted-session count
    | Ready                                   // about to read the rows of its stage
    | Claiming(turn: nat)                     // about to insert the row of `turn`
    | Resetting(turn: nat)                    // lost the insert; about to try the reset
    | Reviewing(turn: nat)                    // owns the turn; the reviewer runs
    | Barren(turn: nat, timedOut: bool)       // no review; about to complete the turn
    | Unposted(turn: nat)                     // the post failed; about to fail the turn
    | PostedTo(turn: nat)                     // the post succeeded; about to complete
    | Stamping(turn: nat, consensus: bool)    // about to stamp `posted_at`
    | Saving(turn: nat, consensus: bool)      // about to save the findings
    | Leaving                                 // the loop is over; about to dispatch CI or not
    | Gone                                    // finished, refused or crashed

  datatype Handler = Handler(
    project: nat, pr: string, sha: string, session: nat, stage: Stage, pc: Pc,
    turnsUsed: nat, consensus: bool, retryable: bool)

  /** Turn budgets of the two stages. */
  datatype Config = Config(opencodeTurns: nat, codexTurns: nat)

  function MaxTurns(cfg: Config, stage: Stage): nat {
    if stage == Codex then cfg.codexTurns else cfg.opencodeTurns
  }

  /** The table, the handlers, every successful post by turn, and every CI dispatch by
      pull request and commit. */
  datatype World = World(
    rows: Table, handlers: map<nat, Handler>, posts: multiset<Key>, dispatches: multiset<(string, string)>)

  datatype Action =
    | Arrive(project: nat, pr: string, sha: string)
    | PassGate(approved: bool)
    | SkipOpencode
    | Begin
    | Claim
    | Reset
    | ReviewFails(timedOut: bool)
    | PostFails
    | PostSucceeds
    | CompleteTurn(agreed: bool, count: nat)
    | Stamp
    | SaveFindings(ok: bool, marked: bool)
    | Leave
    | Crash

  function KeyAt(h: Handler, turn: nat): Key {
    Key(h.pr, h.sha, h.stage, turn)
  }

  /** `_should_skip_for_cap` as the gate applies it: zero prior posts cannot be approved. */
  predicate Refused(w: World, h: Handler, approved: bool) {
    var prior := |PostedSessions(w.rows, h.pr)|;
    ShouldSkipForCap(prior, prior > 0 && approved).0
  }

  ghost predicate Stops(cfg: Config, w: World, h: Handler) {
    || AtConsensus(w.rows, h.pr, h.sha, h.stage)
    || NextTurn(w.rows, h.pr, h.sha, h.stage) > MaxTurns(cfg, h.stage)
    || SessionPosted(w.rows, h.pr, h.sha, h.stage, h.session)
  }

  /** The next loop iteration, or the end of the loop. */
  function Continue(cfg: Config, h: Handler, turn: nat): Handler {
    h.(pc := if turn < MaxTurns(cfg, h.stage) then Claiming(turn + 1) else Leaving)
  }

  /** A handler is done with its stage: on to codex after opencode, gone after codex. */
  function NextStage(h: Handler): Handler {
    if h.stage == Opencode then
      h.(stage := Codex, pc := Ready, turnsUsed := 0, consensus := false, retryable := false)
    else h.(pc := Gone)
  }

  predicate Dispatches(cfg: Config, h: Handler) {
    DispatchesCi(h.stage, h.consensus, h.turnsUsed, cfg.codexTurns, h.retryable)
  }

  ghost predicate Enabled(cfg: Config, w: World, i: nat, a: Action) {
    if a.Arrive? then i !in w.handlers
    else
      i in w.handlers
      && var h := w.handlers[i];
         match a
         case PassGate(_) => h.pc == AtGate
         case SkipOpencode => h.pc == Ready && h.stage == Opencode
         case Begin => h.pc == Ready
         case Claim => h.pc.Claiming?
         case Reset => h.pc.Resetting?
         case ReviewFails(_) => h.pc.Reviewing?
         case PostFails => h.pc.Reviewing?
         case PostSucceeds => h.pc.Reviewing?
         case CompleteTurn(_, _) => h.pc.Barren? || h.pc.Unposted? || h.pc.PostedTo?
         case Stamp => h.pc.Stamping?
         case SaveFindings(_, _) => h.pc.Saving?
         case Leave => h.pc == Leaving
         case Crash => h.pc != Gone
  }

  /** The effect of an action on the handler itself. */
  ghost function Move(cfg: Config, w: World, h: Handler, a: Action): Handler {
    match a
    case Arrive(_, _, _) => h
    case PassGate(approved) =>
      if Refused(w, h, approved) then h.(pc := Gone)
      else h.(pc := Ready, session := |PostedSessions(w.rows, h.pr)| + 1)
    case SkipOpencode => NextStage(h)
    case Begin =>
      if Stops(cfg, w, h) then NextStage(h)
      else h.(pc := Claiming(NextTurn(w.rows, h.pr, h.sha, h.stage)))
    case Claim =>
      if !h.pc.Claiming? then h
      else if KeyAt(h, h.pc.turn) in w.rows then h.(pc := Resetting(h.pc.turn)) else h.(pc := Reviewing(h.pc.turn))
    case Reset =>
      if !h.pc.Resetting? then h
      else if CanReset(w.rows, KeyAt(h, h.pc.turn)) then h.(pc := Reviewing(h.pc.turn)) else h.(pc := Leaving)
    case ReviewFails(timedOut) => if !h.pc.Reviewing? then h else h.(pc := Barren(h.pc.turn, timedOut))
    case PostFails => if !h.pc.Reviewing? then h else h.(pc := Unposted(h.pc.turn))
    case PostSucceeds => if !h.pc.Reviewing? then h else h.(pc := PostedTo(h.pc.turn))
    case CompleteTurn(agreed, _) =>
      (match h.pc
       case Barren(turn, timedOut) =>
         Continue(cfg, h.(turnsUsed := turn, retryable := h.retryable || !timedOut), turn)
       case Unposted(turn) => h.(turnsUsed := turn, retryable := true, pc := Leaving)
       case PostedTo(turn) => h.(pc := Stamping(turn, agreed))
       case _ => h)
    case Stamp => if !h.pc.Stamping? then h else h.(pc := Saving(h.pc.turn, h.pc.consensus))
    case SaveFindings(_, _) =>
      if !h.pc.Saving? then h
      else if h.pc.consensus then h.(turnsUsed := h.pc.turn, consensus := true, pc := Leaving)
      else Continue(cfg, h.(turnsUsed := h.pc.turn), h.pc.turn)
    case Leave => NextStage(h)
    case Crash => h.(pc := Gone)
  }

  /** The effect of an action on the table. */
  function Write(rows: Table, h: Handler, a: Action): Table {
    match a
    case Claim =>
      if h.pc.Claiming? && KeyAt(h, h.pc.turn) !in rows then
        rows[KeyAt(h, h.pc.turn) := Claimed(h.project, h.session)]
      else rows
    case Reset =>
      if h.pc.Resetting? && CanReset(rows, KeyAt(h, h.pc.turn)) then
        rows[KeyAt(h, h.pc.turn) := ResetRow(rows[KeyAt(h, h.pc.turn)])]
      else rows
    case CompleteTurn(agreed, count) =>
      (match h.pc
       case Barren(turn, timedOut) => Complete(rows, KeyAt(h, turn), if timedOut then TimedOut else Failed, None, false)
       case Unposted(turn) => Complete(rows, KeyAt(h, turn), Failed, Some(count), false)
       case PostedTo(turn) => Complete(rows, KeyAt(h, turn), Completed, Some(count), agreed)
       case _ => rows)
    case Stamp => if h.pc.Stamping? then MarkPosted(rows, KeyAt(h, h.pc.turn)) else rows
    case SaveFindings(ok, marked) =>
      if !h.pc.Saving? then rows
      else if ok then RecordFindings(rows, KeyAt(h, h.pc.turn))
      else if marked then StampDbError(rows, KeyAt(h, h.pc.turn))
      else rows
    case _ => rows
  }

  ghost function Next(cfg: Config, w: World, i: nat, a: Action): World
    requires Enabled(cfg, w, i, a)
  {
    if a.Arrive? then
      w.(handlers := w.handlers[i := Handler(a.project, a.pr, a.sha, 0, Opencode, AtGate, 0, false, false)])
    else
      var h := w.handlers[i];
      World(Write(w.rows, h, a),
            w.handlers[i := Move(cfg, w, h, a)],
            if a.PostSucceeds? && h.pc.Reviewing? then w.posts + multiset{KeyAt(h, h.pc.turn)} else w.posts,
            if a.Leave? && Dispatches(cfg, h) then w.dispatches + multiset{(h.pr, h.sha)} else w.dispatches)
  }

  const EMPTY := World(map[], map[], multiset{}, multiset{})

  datatype Step = Step(handler: nat, action: Action)

  ghost predicate IsRun(cfg: Config, w: World, steps: seq<Step>)
    decreases |steps|
  {
    steps == [] ||
    (Enabled(cfg, w, steps[0].handler, steps[0].action)
     && IsRun(cfg, Next(cfg, w, steps[0].handler, steps[0].action), steps[1..]))
  }

  ghost function Reaches(cfg: Config, w: World, steps: seq<Step>): World
    requires IsRun(cfg, w, steps)
    decreases |steps|
  {
    if steps == [] then w
    else Reaches(cfg, Next(cfg, w, steps[0].handler, steps[0].action), steps[1..])
  }

  lemma {:induction false} RunExtends(cfg: Config, w: World, steps: seq<Step>, i: nat, a: Action)
    requires IsRun(cfg, w, steps) && Enabled(cfg, Reaches(cfg, w, steps), i, a)
    ensures IsRun(cfg, w, steps + [Step(i, a)])
    ensures Reaches(cfg, w, steps + [Step(i, a)]) == Next(cfg, Reaches(cfg, w, steps), i, a)
    decreases |steps|
  {
    var steps' := steps + [Step(i, a)];
    if steps == [] {
      assert steps' == [Step(i, a)] && steps'[1..] == [];
    } else {
      assert steps'[0] == steps[0] && steps'[1..] == steps[1..] + [Step(i, a)];
      RunExtends(cfg, Next(cfg, w, steps[0].handler, steps[0].action), steps[1..], i, a);
    }
  }

  // ---- Ownership and posts --------------------------------------------------------

  /** The turn a handler has won and not yet completed. */
  function Owned(h: Handler): Option<Key> {
    if h.pc.Reviewing? || h.pc.Barren? || h.pc.Unposted? || h.pc.PostedTo? then Some(KeyAt(h, h.pc.turn)) else None
  }

  /** The turn a handler has completed after posting and is still writing to. */
  function Finishing(h: Handler): Option<Key> {
    if h.pc.Stamping? || h.pc.Saving? then Some(KeyAt(h, h.pc.turn)) else None
  }

  predicate HasStatus(rows: Table, k: Key, s: Status) {
    k in rows && rows[k].status == s
  }

  ghost predicate OwnersRun(w: World) {
    forall i :: i in w.handlers && Owned(w.handlers[i]).Some? ==> HasStatus(w.rows, Owned(w.handlers[i]).value, Running)
  }

  ghost predicate OwnersUnique(w: World) {
    forall i, j :: i in w.handlers && j in w.handlers && i != j && Owned(w.handlers[i]).Some? ==>
      Owned(w.handlers[i]) != Owned(w.handlers[j])
  }

  ghost predicate FinishersCompleted(w: World) {
    forall i :: i in w.handlers && Finishing(w.handlers[i]).Some? ==>
      HasStatus(w.rows, Finishing(w.handlers[i]).value, Completed)
  }

  ghost predicate PostsOnce(w: World) {
    && (forall k :: w.posts[k] <= 1)
    && (forall k :: w.posts[k] > 0 ==> HasStatus(w.rows, k, Running) || HasStatus(w.rows, k, Completed))
    && (forall i :: i in w.handlers && Owned(w.handlers[i]).Some? && w.posts[Owned(w.handlers[i]).value] > 0 ==>
          w.handlers[i].pc.PostedTo?)
  }

  ghost predicate Ownership(w: World) {
    OwnersRun(w) && OwnersUnique(w) && FinishersCompleted(w) && PostsOnce(w)
  }

  /** Only handler `i` moved. */
  ghost predicate Moves(w: World, w': World, i: nat) {
    i in w.handlers && i in w'.handlers && w'.handlers == w.handlers[i := w'.handlers[i]]
  }

  /** No status changed. */
  ghost predicate SameStatuses(w: World, w': World) {
    forall k, s :: HasStatus(w'.rows, k, s) <==> HasStatus(w.rows, k, s)
  }

  /** A step that neither wins nor loses a turn, nor posts. */
  lemma NeutralStep(w: World, w': World, i: nat)
    requires Ownership(w) && Moves(w, w', i) && SameStatuses(w, w') && w'.posts == w.posts
    requires Owned(w'.handlers[i]) == None ||
               (Owned(w'.handlers[i]) == Owned(w.handlers[i]) && !w.handlers[i].pc.PostedTo?)
    requires Finishing(w'.handlers[i]) == None || Finishing(w'.handlers[i]) == Finishing(w.handlers[i])
    ensures Ownership(w')
  {
  }

  /** A step that wins the turn `k`, absent or failed before. */
  lemma WinningStep(w: World, w': World, i: nat, k: Key)
    requires Ownership(w) && Moves(w, w', i) && w'.posts == w.posts
    requires k in w'.rows && w'.rows == w.rows[k := w'.rows[k]] && w'.rows[k].status == Running
    requires CanWin(w.rows, k)
    requires Owned(w'.handlers[i]) == Some(k) && Finishing(w'.handlers[i]) == None
    ensures Ownership(w')
  {
    assert !HasStatus(w.rows, k, Running) && !HasStatus(w.rows, k, Completed);
    assert forall j, s :: j != k ==> (HasStatus(w'.rows, j, s) <==> HasStatus(w.rows, j, s));
  }

  /** The post of an owned turn succeeds. */
  lemma PostingStep(w: World, w': World, i: nat, k: Key)
    requires Ownership(w) && Moves(w, w', i) && w'.rows == w.rows && w'.posts == w.posts + multiset{k}
    requires Owned(w.handlers[i]) == Some(k) && !w.handlers[i].pc.PostedTo?
    requires Owned(w'.handlers[i]) == Some(k) && w'.handlers[i].pc.PostedTo? && Finishing(w'.handlers[i]) == None
    ensures Ownership(w')
  {
  }

  /** The owner completes its turn; a turn that was posted completes as such. */
  lemma CompletingStep(w: World, w': World, i: nat, k: Key)
    requires Ownership(w) && Moves(w, w', i) && w'.posts == w.posts
    requires Owned(w.handlers[i]) == Some(k)
    requires k in w'.rows && w'.rows == w.rows[k := w'.rows[k]]
    requires w.handlers[i].pc.PostedTo? ==> w'.rows[k].status == Completed
    requires Owned(w'.handlers[i]) == None
    requires Finishing(w'.handlers[i]) == None ||
               (Finishing(w'.handlers[i]) == Some(k) && w'.rows[k].status == Completed)
    ensures Ownership(w')
  {
    assert HasStatus(w.rows, k, Running) && !HasStatus(w.rows, k, Completed);
    assert forall j, s :: j != k ==> (HasStatus(w'.rows, j, s) <==> HasStatus(w.rows, j, s));
  }

  lemma ArriveKeepsOwnership(cfg: Config, w: World, i: nat, a: Action)
    requires Ownership(w) && Enabled(cfg, w, i, a) && a.Arrive?
    ensures Ownership(Next(cfg, w, i, a))
  {
  }

  /** The three kinds of step that touch ownership; all others leave it alone. */
  predicate Wins(w: World, i: nat, a: Action) {
    i in w.handlers
    && var h := w.handlers[i];
       || (a.Claim? && h.pc.Claiming? && KeyAt(h, h.pc.turn) !in w.rows)
       || (a.Reset? && h.pc.Resetting? && CanReset(w.rows, KeyAt(h, h.pc.turn)))
  }

  lemma WinIsWin(cfg: Config, w: World, i: nat, a: Action)
    requires Enabled(cfg, w, i, a) && Wins(w, i, a)
    ensures var w', k := Next(cfg, w, i, a), KeyAt(w.handlers[i], w.handlers[i].pc.turn);
            && Moves(w, w', i) && w'.posts == w.posts
            && k in w'.rows && w'.rows == w.rows[k := w'.rows[k]] && w'.rows[k].status == Running
            && CanWin(w.rows, k) && w'.handlers[i] == w.handlers[i].(pc := Reviewing(w.handlers[i].pc.turn))
  {
  }

  lemma CompletionIsCompletion(cfg: Config, w: World, i: nat, agreed: bool, count: nat)
    requires Enabled(cfg, w, i, CompleteTurn(agreed, count)) && OwnersRun(w)
    ensures var w', k := Next(cfg, w, i, CompleteTurn(agreed, count)), KeyAt(w.handlers[i], w.handlers[i].pc.turn);
            && Moves(w, w', i) && w'.posts == w.posts
            && Owned(w.handlers[i]) == Some(k)
            && k in w'.rows && w'.rows == w.rows[k := w'.rows[k]]
            && (w.handlers[i].pc.PostedTo? ==> w'.rows[k].status == Completed)
            && (!w.handlers[i].pc.PostedTo? ==> w'.rows[k].status == TimedOut || w'.rows[k].status == Failed)
            && Owned(w'.handlers[i]) == None
            && (Finishing(w'.handlers[i]) == if w.handlers[i].pc.PostedTo? then Some(k) else None)
  {
    assert Owned(w.handlers[i]).Some?;
  }

  lemma OtherStepIsNeutral(cfg: Config, w: World, i: nat, a: Action)
    requires Enabled(cfg, w, i, a) && !a.Arrive? && !a.CompleteTurn? && !a.PostSucceeds? && !Wins(w, i, a)
    ensures var w' := Next(cfg, w, i, a);
            && Moves(w, w', i) && SameStatuses(w, w') && w'.posts == w.posts
            && (Owned(w'.handlers[i]) == None ||
                 (Owned(w'.handlers[i]) == Owned(w.handlers[i]) && !w.handlers[i].pc.PostedTo?))
            && (Finishing(w'.handlers[i]) == None || Finishing(w'.handlers[i]) == Finishing(w.handlers[i]))
  {
  }

  lemma PostKeepsOwnership(cfg: Config, w: World, i: nat)
    requires Ownership(w) && Enabled(cfg, w, i, PostSucceeds)
    ensures Ownership(Next(cfg, w, i, PostSucceeds))
  {
    PostingStep(w, Next(cfg, w, i, PostSucceeds), i, KeyAt(w.handlers[i], w.handlers[i].pc.turn));
  }

  lemma StepKeepsOwnership(cfg: Config, w: World, i: nat, a: Action)
    requires Ownership(w) && Enabled(cfg, w, i, a)
    ensures Ownership(Next(cfg, w, i, a))
  {
    if a.CompleteTurn? {
      CompletionIsCompletion(cfg, w, i, a.agreed, a.count);
      CompletingStep(w, Next(cfg, w, i, a), i, Owned(w.handlers[i]).value);
    } else if Wins(w, i, a) {
      WinIsWin(cfg, w, i, a);
      WinningStep(w, Next(cfg, w, i, a), i, KeyAt(w.handlers[i], w.handlers[i].pc.turn));
    } else if a.PostSucceeds? {
      PostKeepsOwnership(cfg, w, i);
    } else if a.Arrive? {
      ArriveKeepsOwnership(cfg, w, i, a);
    } else {
      OtherStepIsNeutral(cfg, w, i, a);
      NeutralStep(w, Next(cfg, w, i, a), i);
    }
  }

  /** Over every interleaving, crashes included: a turn has at most one owner at a time, an
      owner's row says running, and a turn is posted at most once, ever. */
  lemma {:induction false} TurnOwnership(cfg: Config, w: World, steps: seq<Step>)
    requires Ownership(w) && IsRun(cfg, w, steps)
    ensures Ownership(Reaches(cfg, w, steps))
    decreases |steps|
  {
    if steps != [] {
      StepKeepsOwnership(cfg, w, steps[0].handler, steps[0].action);
      TurnOwnership(cfg, Next(cfg, w, steps[0].handler, steps[0].action), steps[1..]);
    }
  }

  // ---- Turn numbers ---------------------------------------------------------------

  predicate HasPredecessor(rows: Table, k: Key) {
    k.turn > 1 ==> k.(turn := k.turn - 1) in rows
  }

  ghost predicate RowsContiguous(cfg: Config, rows: Table) {
    forall k :: k in rows ==> 1 <= k.turn <= MaxTurns(cfg, k.stage) && HasPredecessor(rows, k)
  }

  /** A handler only ever tries a turn whose predecessor has a row. */
  predicate OnTrack(cfg: Config, rows: Table, h: Handler) {
    h.pc.Claiming? || h.pc.Resetting? ==>
      1 <= h.pc.turn <= MaxTurns(cfg, h.stage) && HasPredecessor(rows, KeyAt(h, h.pc.turn))
  }

  ghost predicate Contiguous(cfg: Config, w: World) {
    && RowsContiguous(cfg, w.rows)
    && (forall i :: i in w.handlers ==> OnTrack(cfg, w.rows, w.handlers[i]))
  }

  /** Rows are only ever added, and only by a claim. */
  lemma WritesAddOnlyClaims(rows: Table, h: Handler, a: Action)
    ensures forall k :: k in rows ==> k in Write(rows, h, a)
    ensures forall k :: k in Write(rows, h, a) && k !in rows ==> a.Claim? && h.pc.Claiming? && k == KeyAt(h, h.pc.turn)
  {
  }

  lemma LoopStaysOnTrack(cfg: Config, w: World, i: nat, a: Action)
    requires Ownership(w) && Enabled(cfg, w, i, a) && (a.CompleteTurn? || a.SaveFindings?)
    ensures OnTrack(cfg, w.rows, Move(cfg, w, w.handlers[i], a))
  {
    var h := w.handlers[i];
    assert Owned(h).Some? ==> Owned(h).value in w.rows;
    assert Finishing(h).Some? ==> Finishing(h).value in w.rows;
  }

  lemma MoveStaysOnTrack(cfg: Config, w: World, i: nat, a: Action)
    requires Ownership(w) && Contiguous(cfg, w) && Enabled(cfg, w, i, a) && !a.Arrive?
    ensures OnTrack(cfg, w.rows, Move(cfg, w, w.handlers[i], a))
  {
    var h := w.handlers[i];
    if a.CompleteTurn? || a.SaveFindings? {
      LoopStaysOnTrack(cfg, w, i, a);
    } else if !a.Begin? {
      assert OnTrack(cfg, w.rows, h);
    }
  }

  /** A row is added only for a turn whose handler is on track. */
  lemma ContiguousCarriesOver(cfg: Config, w: World, w': World, i: nat)
    requires Contiguous(cfg, w) && Moves(w, w', i)
    requires forall k :: k in w.rows ==> k in w'.rows
    requires forall k :: k in w'.rows && k !in w.rows ==>
               1 <= k.turn <= MaxTurns(cfg, k.stage) && HasPredecessor(w.rows, k)
    requires OnTrack(cfg, w.rows, w'.handlers[i])
    ensures Contiguous(cfg, w')
  {
    forall j | j in w'.handlers
      ensures OnTrack(cfg, w'.rows, w'.handlers[j])
    {
      assert OnTrack(cfg, w.rows, w'.handlers[j]);
    }
  }

  lemma StepKeepsContiguous(cfg: Config, w: World, i: nat, a: Action)
    requires Ownership(w) && Contiguous(cfg, w) && Enabled(cfg, w, i, a)
    ensures Contiguous(cfg, Next(cfg, w, i, a))
  {
    if !a.Arrive? {
      MoveStaysOnTrack(cfg, w, i, a);
      assert OnTrack(cfg, w.rows, w.handlers[i]);
      ContiguousCarriesOver(cfg, w, Next(cfg, w, i, a), i);
    }
  }

  /** The turns of every stage of every commit are always 1, 2, ..., n without a gap, and n
      never exceeds the budget, whatever order the handlers run and crash in. */
  lemma {:induction false} TurnsAreContiguous(cfg: Config, steps: seq<Step>, w: World, pr: string,
                                              sha: string, stage: Stage)
    requires Ownership(w) && Contiguous(cfg, w) && IsRun(cfg, w, steps)
    ensures Contiguous(cfg, Reaches(cfg, w, steps))
    ensures var ts := Turns(Reaches(cfg, w, steps).rows, pr, sha, stage);
            ts == UpTo(|ts|) && |ts| <= MaxTurns(cfg, stage)
    decreases |steps|
  {
    if steps == [] {
      SegmentOfTurns(cfg, w.rows, pr, sha, stage);
    } else {
      StepKeepsOwnership(cfg, w, steps[0].handler, steps[0].action);
      StepKeepsContiguous(cfg, w, steps[0].handler, steps[0].action);
      TurnsAreContiguous(cfg, steps[1..], Next(cfg, w, steps[0].handler, steps[0].action), pr, sha, stage);
    }
  }

  lemma SegmentOfTurns(cfg: Config, rows: Table, pr: string, sha: string, stage: Stage)
    requires RowsContiguous(cfg, rows)
    ensures var ts := Turns(rows, pr, sha, stage);
            ts == UpTo(|ts|) && |ts| <= MaxTurns(cfg, stage)
  {
    var ts := Turns(rows, pr, sha, stage);
    assert forall t :: t in ts <==> Key(pr, sha, stage, t) in rows;
    var n := if ts == {} then 0 else Highest(ts);
    DownTo(cfg, rows, pr, sha, stage, n, n);
    assert ts == UpTo(n);
  }

  lemma {:induction false} DownTo(cfg: Config, rows: Table, pr: string, sha: string, stage: Stage,
                                  n: nat, m: nat)
    requires RowsContiguous(cfg, rows) && (n > 0 ==> Key(pr, sha, stage, n) in rows) && m <= n
    ensures forall t :: n - m < t <= n && t > 0 ==> Key(pr, sha, stage, t) in rows
    decreases m
  {
    if m > 0 {
      DownTo(cfg, rows, pr, sha, stage, n, m - 1);
      if m > 1 {
        assert HasPredecessor(rows, Key(pr, sha, stage, n - m + 2));
      }
    }
  }

  // ---- Posted sessions ------------------------------------------------------------

  function Posted(w: World, pr: string): nat {
    |PostedSessions(w.rows, pr)|
  }

  /** A session number that a handler or a row may carry. */
  predicate Plausible(w: World, pr: string, session: nat) {
    1 <= session <= Posted(w, pr) + 1 && session <= MAX_REVIEWS_PER_PR
  }

  predicate RowPlausible(w: World, k: Key) {
    k in w.rows ==> w.rows[k].session.Some? && Plausible(w, k.pr, w.rows[k].session.value)
  }

  predicate HandlerPlausible(w: World, h: Handler) {
    h.pc != AtGate && h.pc != Gone ==> Plausible(w, h.pr, h.session)
  }

  ghost predicate Sessions(w: World) {
    && (forall pr :: PostedSessions(w.rows, pr) == UpTo(Posted(w, pr)))
    && (forall k :: RowPlausible(w, k))
    && (forall i :: i in w.handlers ==> HandlerPlausible(w, w.handlers[i]))
  }

  /** Stamping a codex row adds its session and nothing else. */
  lemma StampAddsSession(rows: Table, k: Key, pr: string)
    requires k in rows && rows[k].session.Some?
    ensures PostedSessions(MarkPosted(rows, k), pr)
         == PostedSessions(rows, pr) + (if k.pr == pr && k.stage == Codex then {rows[k].session.value} else {})
  {
    var rows' := MarkPosted(rows, k);
    assert forall j :: j != k ==> (CountsForCap(rows, pr, j) <==> CountsForCap(rows', pr, j));
    forall s
      ensures s in PostedSessions(rows', pr) <==>
              s in PostedSessions(rows, pr) + (if k.pr == pr && k.stage == Codex then {rows[k].session.value} else {})
    {
      if s in PostedSessions(rows', pr) {
        var j :| j in rows' && CountsForCap(rows', pr, j) && rows'[j].session.value == s;
        assert j != k ==> j in rows && CountsForCap(rows, pr, j);
      }
      if s in PostedSessions(rows, pr) {
        var j :| j in rows && CountsForCap(rows, pr, j) && rows[j].session.value == s;
        assert j in rows' && CountsForCap(rows', pr, j);
      }
      if k.pr == pr && k.stage == Codex {
        assert k in rows' && CountsForCap(rows', pr, k);
      }
    }
  }

  /** Only a stamp changes `posted`, and nothing changes a row's session. */
  lemma WritesKeepSessions(rows: Table, rows': Table, h: Handler, a: Action)
    requires !(a.Stamp? && h.pc.Stamping?) && rows' == Write(rows, h, a)
    ensures forall k :: k in rows ==>
              k in rows' && rows'[k].session == rows[k].session && rows'[k].posted == rows[k].posted
    ensures forall k :: k in rows' && k !in rows ==> !rows'[k].posted && rows'[k].session == Some(h.session)
  {
  }

  lemma MoveStaysPlausible(cfg: Config, w: World, i: nat, a: Action)
    requires Sessions(w) && Enabled(cfg, w, i, a) && !a.Arrive?
    ensures HandlerPlausible(w, Move(cfg, w, w.handlers[i], a))
  {
    assert HandlerPlausible(w, w.handlers[i]);
  }

  /** Sessions survive a step that keeps or extends the posted sessions by one. */
  lemma SessionsCarryOver(w: World, w': World, i: nat)
    requires Sessions(w) && Moves(w, w', i) && HandlerPlausible(w, w'.handlers[i])
    requires forall pr :: PostedSessions(w'.rows, pr) == UpTo(Posted(w', pr)) && Posted(w, pr) <= Posted(w', pr)
    requires forall k :: k in w'.rows ==>
               w'.rows[k].session.Some? && Plausible(w, k.pr, w'.rows[k].session.value)
    ensures Sessions(w')
  {
  }

  /** A session number at most one past the segment extends it or stays inside it. */
  lemma SegmentGrows(s: nat, n: nat)
    requires 1 <= s <= n + 1
    ensures UpTo(n) + {s} == UpTo(if s == n + 1 then n + 1 else n)
  {
  }

  lemma StampKeepsSegment(w: World, w': World, k: Key, pr: string)
    requires Sessions(w) && k in w.rows && w'.rows == MarkPosted(w.rows, k)
    ensures PostedSessions(w'.rows, pr) == UpTo(Posted(w', pr)) && Posted(w, pr) <= Posted(w', pr)
  {
    assert RowPlausible(w, k);
    StampAddsSession(w.rows, k, pr);
    if k.pr == pr && k.stage == Codex {
      SegmentGrows(w.rows[k].session.value, Posted(w, pr));
    } else {
      assert PostedSessions(w'.rows, pr) == PostedSessions(w.rows, pr);
    }
  }

  lemma StampKeepsSegments(w: World, w': World, k: Key)
    requires Sessions(w) && k in w.rows && w'.rows == MarkPosted(w.rows, k)
    ensures forall pr :: PostedSessions(w'.rows, pr) == UpTo(Posted(w', pr)) && Posted(w, pr) <= Posted(w', pr)
    ensures forall j :: j in w'.rows ==> w'.rows[j].session.Some? && Plausible(w, j.pr, w'.rows[j].session.value)
  {
    forall pr
      ensures PostedSessions(w'.rows, pr) == UpTo(Posted(w', pr)) && Posted(w, pr) <= Posted(w', pr)
    {
      StampKeepsSegment(w, w', k, pr);
    }
    forall j | j in w'.rows
      ensures w'.rows[j].session.Some? && Plausible(w, j.pr, w'.rows[j].session.value)
    {
      assert RowPlausible(w, j);
    }
  }

  lemma StampKeepsSessions(cfg: Config, w: World, i: nat)
    requires Ownership(w) && Sessions(w) && Enabled(cfg, w, i, Stamp)
    ensures Sessions(Next(cfg, w, i, Stamp))
  {
    var w', h := Next(cfg, w, i, Stamp), w.handlers[i];
    MoveStaysPlausible(cfg, w, i, Stamp);
    assert Finishing(h) == Some(KeyAt(h, h.pc.turn));
    StampKeepsSegments(w, w', KeyAt(h, h.pc.turn));
    SessionsCarryOver(w, w', i);
  }

  lemma WriteKeepsSessions(cfg: Config, w: World, i: nat, a: Action)
    requires Sessions(w) && Enabled(cfg, w, i, a) && !a.Arrive? && !a.Stamp?
    ensures Sessions(Next(cfg, w, i, a))
  {
    var w', h := Next(cfg, w, i, a), w.handlers[i];
    MoveStaysPlausible(cfg, w, i, a);
    WritesKeepSessions(w.rows, w'.rows, h, a);
    WritesAddOnlyClaims(w.rows, h, a);
    assert HandlerPlausible(w, h);
    assert forall pr :: PostedSessions(w'.rows, pr) == PostedSessions(w.rows, pr);
    forall k | k in w'.rows
      ensures w'.rows[k].session.Some? && Plausible(w, k.pr, w'.rows[k].session.value)
    {
      assert RowPlausible(w, k);
    }
    SessionsCarryOver(w, w', i);
  }

  lemma ArriveKeepsSessions(cfg: Config, w: World, i: nat, a: Action)
    requires Sessions(w) && Enabled(cfg, w, i, a) && a.Arrive?
    ensures Sessions(Next(cfg, w, i, a))
  {
    var w' := Next(cfg, w, i, a);
    forall k
      ensures RowPlausible(w', k)
    {
      assert RowPlausible(w, k);
    }
  }

  lemma StepKeepsSessions(cfg: Config, w: World, i: nat, a: Action)
    requires Ownership(w) && Sessions(w) && Enabled(cfg, w, i, a)
    ensures Sessions(Next(cfg, w, i, a))
  {
    if a.Arrive? {
      ArriveKeepsSessions(cfg, w, i, a);
    } else if a.Stamp? {
      StampKeepsSessions(cfg, w, i);
    } else {
      WriteKeepsSessions(cfg, w, i, a);
    }
  }

  /** The codex sessions that have posted on a pull request are always numbered 1, 2, ..., n
      with n within the cap, although sessions overlap, crash, and a retried turn keeps the
      number of the session that first claimed it. */
  lemma {:induction false} PostedSessionsAreContiguous(cfg: Config, steps: seq<Step>, w: World,
                                                       pr: string)
    requires Ownership(w) && Sessions(w) && IsRun(cfg, w, steps)
    ensures Sessions(Reaches(cfg, w, steps))
    ensures var ss := PostedSessions(Reaches(cfg, w, steps).rows, pr);
            ss == UpTo(|ss|) && |ss| <= MAX_REVIEWS_PER_PR
    decreases |steps|
  {
    if steps == [] {
      var n := Posted(w, pr);
      if n > 0 {
        assert n in PostedSessions(w.rows, pr);
        var k :| k in w.rows && CountsForCap(w.rows, pr, k) && w.rows[k].session.value == n;
        assert RowPlausible(w, k);
      }
    } else {
      StepKeepsOwnership(cfg, w, steps[0].handler, steps[0].action);
      StepKeepsSessions(cfg, w, steps[0].handler, steps[0].action);
      PostedSessionsAreContiguous(cfg, steps[1..], Next(cfg, w, steps[0].handler, steps[0].action), pr);
    }
  }

  // ---- CI dispatch with one codex turn --------------------------------------------

  /** The handler has settled the only codex turn and may still dispatch. */
  predicate Committed(cfg: Config, h: Handler) {
    h.stage == Codex && h.pc != Gone && (h.pc.Stamping? || h.pc.Saving? || Dispatches(cfg, h))
  }

  /** Before it has completed a turn a codex handler has nothing to report. */
  predicate Blank(h: Handler) {
    h.stage == Opencode || h.pc == Leaving || h.pc == Gone || (h.turnsUsed == 0 && !h.consensus)
  }

  function OnlyTurn(pr: string, sha: string): Key {
    Key(pr, sha, Codex, 1)
  }

  predicate Settled(rows: Table, pr: string, sha: string) {
    HasStatus(rows, OnlyTurn(pr, sha), Completed) || HasStatus(rows, OnlyTurn(pr, sha), TimedOut)
  }

  ghost predicate CiOnce(cfg: Config, w: World) {
    && (forall i :: i in w.handlers ==> Blank(w.handlers[i]))
    && (forall i :: i in w.handlers && Committed(cfg, w.handlers[i]) ==>
          Settled(w.rows, w.handlers[i].pr, w.handlers[i].sha) &&
              w.dispatches[(w.handlers[i].pr, w.handlers[i].sha)] == 0)
    && (forall i, j ::
          (i in w.handlers && j in w.handlers && i != j && Committed(cfg, w.handlers[i]) &&
              Committed(cfg, w.handlers[j]))
          ==> (w.handlers[i].pr, w.handlers[i].sha) != (w.handlers[j].pr, w.handlers[j].sha))
    && (forall pr, sha :: w.dispatches[(pr, sha)] <= 1)
    && (forall pr, sha :: w.dispatches[(pr, sha)] > 0 ==> Settled(w.rows, pr, sha))
  }

  /** What a step must do to keep the invariant when it dispatches nothing. */
  lemma CiCarriesOver(cfg: Config, w: World, w': World, i: nat)
    requires CiOnce(cfg, w) && Moves(w, w', i) && w'.dispatches == w.dispatches
    requires forall pr, sha :: Settled(w.rows, pr, sha) ==> Settled(w'.rows, pr, sha)
    requires var h, h' := w.handlers[i], w'.handlers[i];
             && Blank(h') && h'.pr == h.pr && h'.sha == h.sha
             && (Committed(cfg, h') ==>
                   Committed(cfg, h) || (!Settled(w.rows, h.pr, h.sha) && Settled(w'.rows, h.pr, h.sha)))
    ensures CiOnce(cfg, w')
  {
    var h := w.handlers[i];
    assert w.dispatches[(h.pr, h.sha)] > 0 ==> Settled(w.rows, h.pr, h.sha);
  }

  lemma LeaveKeepsCi(cfg: Config, w: World, i: nat)
    requires cfg.codexTurns == 1 && CiOnce(cfg, w) && Enabled(cfg, w, i, Leave)
    ensures CiOnce(cfg, Next(cfg, w, i, Leave))
  {
    if !Dispatches(cfg, w.handlers[i]) {
      CiCarriesOver(cfg, w, Next(cfg, w, i, Leave), i);
    }
  }

  /** In a one-turn codex stage every codex turn is turn 1. */
  lemma OnlyTurnOne(cfg: Config, w: World, k: Key)
    requires cfg.codexTurns == 1 && RowsContiguous(cfg, w.rows) && k in w.rows && k.stage == Codex
    ensures k == OnlyTurn(k.pr, k.sha)
  {
  }

  lemma CompletionKeepsCi(cfg: Config, w: World, i: nat, agreed: bool, count: nat)
    requires cfg.codexTurns == 1
    requires Ownership(w) && Contiguous(cfg, w) && CiOnce(cfg, w) && Enabled(cfg, w, i, CompleteTurn(agreed, count))
    ensures CiOnce(cfg, Next(cfg, w, i, CompleteTurn(agreed, count)))
  {
    var w', h := Next(cfg, w, i, CompleteTurn(agreed, count)), w.handlers[i];
    var k := KeyAt(h, h.pc.turn);
    CompletionIsCompletion(cfg, w, i, agreed, count);
    assert HasStatus(w.rows, k, Running);
    if h.stage == Codex {
      OnlyTurnOne(cfg, w, k);
    }
    assert forall j, s :: j != k ==> (HasStatus(w'.rows, j, s) <==> HasStatus(w.rows, j, s));
    CiCarriesOver(cfg, w, w', i);
  }

  lemma WinKeepsCi(cfg: Config, w: World, i: nat, a: Action)
    requires cfg.codexTurns == 1
    requires Ownership(w) && Contiguous(cfg, w) && CiOnce(cfg, w) && Enabled(cfg, w, i, a) && Wins(w, i, a)
    ensures CiOnce(cfg, Next(cfg, w, i, a))
  {
    var w', h := Next(cfg, w, i, a), w.handlers[i];
    var k := KeyAt(h, h.pc.turn);
    WinIsWin(cfg, w, i, a);
    assert forall j, s :: j != k ==> (HasStatus(w'.rows, j, s) <==> HasStatus(w.rows, j, s));
    assert Blank(h);
    CiCarriesOver(cfg, w, w', i);
  }

  /** Every other step changes no status and commits nobody. */
  lemma OtherStepCommitsNobody(cfg: Config, w: World, i: nat, a: Action)
    requires cfg.codexTurns == 1 && !a.Arrive? && !a.CompleteTurn? && !a.Leave? && !Wins(w, i, a)
    requires Enabled(cfg, w, i, a) && Blank(w.handlers[i])
    requires w.handlers[i].pc.Saving? && w.handlers[i].stage == Codex ==> w.handlers[i].pc.turn == 1
    ensures var w', h, h' := Next(cfg, w, i, a), w.handlers[i], Next(cfg, w, i, a).handlers[i];
            && w'.dispatches == w.dispatches && SameStatuses(w, w')
            && Blank(h') && h'.pr == h.pr && h'.sha == h.sha
            && (Committed(cfg, h') ==> Committed(cfg, h))
  {
  }

  lemma StepKeepsCi(cfg: Config, w: World, i: nat, a: Action)
    requires cfg.codexTurns == 1
    requires Ownership(w) && Contiguous(cfg, w) && CiOnce(cfg, w) && Enabled(cfg, w, i, a)
    ensures CiOnce(cfg, Next(cfg, w, i, a))
  {
    if a.Arrive? {
      assert !Committed(cfg, Next(cfg, w, i, a).handlers[i]);
    } else if a.CompleteTurn? {
      CompletionKeepsCi(cfg, w, i, a.agreed, a.count);
    } else if a.Leave? {
      LeaveKeepsCi(cfg, w, i);
    } else if Wins(w, i, a) {
      WinKeepsCi(cfg, w, i, a);
    } else {
      var h := w.handlers[i];
      if h.pc.Saving? && h.stage == Codex {
        assert Finishing(h).Some?;
        OnlyTurnOne(cfg, w, KeyAt(h, h.pc.turn));
      }
      OtherStepCommitsNobody(cfg, w, i, a);
      CiCarriesOver(cfg, w, Next(cfg, w, i, a), i);
    }
  }

  /** With a budget of one codex turn CI is dispatched at most once for a commit, over every
      interleaving of handlers and crashes. */
  lemma {:induction false} CiDispatchedAtMostOnce(cfg: Config, w: World, steps: seq<Step>, pr: string,
                                                  sha: string)
    requires cfg.codexTurns == 1
    requires Ownership(w) && Contiguous(cfg, w) && CiOnce(cfg, w) && IsRun(cfg, w, steps)
    ensures Reaches(cfg, w, steps).dispatches[(pr, sha)] <= 1
    decreases |steps|
  {
    if steps != [] {
      var i, a := steps[0].handler, steps[0].action;
      StepKeepsOwnership(cfg, w, i, a);
      StepKeepsContiguous(cfg, w, i, a);
      StepKeepsCi(cfg, w, i, a);
      CiDispatchedAtMostOnce(cfg, Next(cfg, w, i, a), steps[1..], pr, sha);
    }
  }

  /** Everything above from an empty table: what every reachable world satisfies. */
  lemma ReachableWorlds(cfg: Config, steps: seq<Step>, pr: string, sha: string, stage: Stage)
    requires IsRun(cfg, EMPTY, steps)
    ensures var w := Reaches(cfg, EMPTY, steps);
            && OwnersRun(w) && OwnersUnique(w) && (forall k :: w.posts[k] <= 1)
            && Turns(w.rows, pr, sha, stage) == UpTo(|Turns(w.rows, pr, sha, stage)|)
            && |Turns(w.rows, pr, sha, stage)| <= MaxTurns(cfg, stage)
            && PostedSessions(w.rows, pr) == UpTo(|PostedSessions(w.rows, pr)|)
            && |PostedSessions(w.rows, pr)| <= MAX_REVIEWS_PER_PR
            && (cfg.codexTurns == 1 ==> w.dispatches[(pr, sha)] <= 1)
  {
    assert Sessions(EMPTY) by {
      assert forall p :: PostedSessions(EMPTY.rows, p) == {};
    }
    TurnOwnership(cfg, EMPTY, steps);
    TurnsAreContiguous(cfg, steps, EMPTY, pr, sha, stage);
    PostedSessionsAreContiguous(cfg, steps, EMPTY, pr);
    if cfg.codexTurns == 1 {
      CiDispatchedAtMostOnce(cfg, EMPTY, steps, pr, sha);
    }
  }

  // ---- The gate and the badge -----------------------------------------------------

  /** Everything about the pull request belongs to one project. */
  ghost predicate InProject(w: World, pr: string, project: nat) {
    && (forall k :: k in w.rows && k.pr == pr ==> w.rows[k].project == project)
    && (forall i :: i in w.handlers && w.handlers[i].pr == pr ==> w.handlers[i].project == project)
  }

  predicate ArrivesIn(a: Action, pr: string, project: nat) {
    a.Arrive? && a.pr == pr ==> a.project == project
  }

  lemma WritesKeepProject(rows: Table, h: Handler, a: Action)
    ensures forall k :: k in rows ==> k in Write(rows, h, a) && Write(rows, h, a)[k].project == rows[k].project
    ensures forall k :: k in Write(rows, h, a) && k !in rows ==>
              k.pr == h.pr && Write(rows, h, a)[k].project == h.project
  {
  }

  lemma StepKeepsProject(cfg: Config, w: World, i: nat, a: Action, pr: string, project: nat)
    requires InProject(w, pr, project) && Enabled(cfg, w, i, a) && ArrivesIn(a, pr, project)
    ensures InProject(Next(cfg, w, i, a), pr, project)
  {
    if !a.Arrive? {
      WritesKeepProject(w.rows, w.handlers[i], a);
      var h' := Move(cfg, w, w.handlers[i], a);
      assert h'.pr == w.handlers[i].pr && h'.project == w.handlers[i].project;
    }
  }

  lemma {:induction false} RunKeepsProject(cfg: Config, w: World, steps: seq<Step>, pr: string, project: nat)
    requires InProject(w, pr, project) && IsRun(cfg, w, steps)
    requires forall s :: s in steps ==> ArrivesIn(s.action, pr, project)
    ensures InProject(Reaches(cfg, w, steps), pr, project)
    decreases |steps|
  {
    if steps != [] {
      assert steps[0] in steps;
      StepKeepsProject(cfg, w, steps[0].handler, steps[0].action, pr, project);
      RunKeepsProject(cfg, Next(cfg, w, steps[0].handler, steps[0].action), steps[1..], pr, project);
    }
  }

  /** Five sessions have posted on the pull request, or one has and the latest review approves. */
  ghost predicate CapReached(rows: Table, pr: string, approved: bool) {
    (exists five :: FivePosted(rows, pr, five)) || (approved && exists n: nat :: HasPost(rows, pr, n))
  }

  lemma RefusedTold(w: World, h: Handler, approved: bool)
    ensures Refused(w, h, approved) <==> CapReached(w.rows, h.pr, approved)
  {
    var posted := PostedSessions(w.rows, h.pr);
    RefusedExactly(w.rows, h.pr);
    assert forall n: nat :: n in posted <==> HasPost(w.rows, h.pr, n);
    if posted != {} {
      var n :| n in posted;
      assert HasPost(w.rows, h.pr, n);
    }
  }

  /** The gate turns a handler away exactly when the cap is reached; else the handler is given
      the next session number. */
  lemma GateExactly(cfg: Config, w: World, i: nat, approved: bool)
    requires Enabled(cfg, w, i, PassGate(approved))
    ensures var h := w.handlers[i];
            Next(cfg, w, i, PassGate(approved)) == w.(handlers := w.handlers[i :=
              if CapReached(w.rows, h.pr, approved) then h.(pc := Gone)
              else h.(pc := Ready, session := |PostedSessions(w.rows, h.pr)| + 1)])
  {
    RefusedTold(w, w.handlers[i], approved);
  }

  /** In every reachable world where the gate turns a handler away although nothing has been
      approved, the board agrees: the badge of no commit asks for another push or shows
      progress, provided the webhooks of the pull request belong to one project. */
  lemma GateMeansExhausted(cfg: Config, steps: seq<Step>, i: nat, project: nat, sha: string, maxTurns: nat)
    requires IsRun(cfg, EMPTY, steps) && Enabled(cfg, Reaches(cfg, EMPTY, steps), i, PassGate(false))
    requires forall s :: s in steps ==>
               ArrivesIn(s.action, Reaches(cfg, EMPTY, steps).handlers[i].pr, project)
    requires Next(cfg, Reaches(cfg, EMPTY, steps), i, PassGate(false)).handlers[i].pc == Gone && sha != ""
    ensures var w := Reaches(cfg, EMPTY, steps);
            var pr := w.handlers[i].pr;
            var badge := Badge(w.rows, project, pr, sha, maxTurns);
            && badge != NotStarted && badge != Stale && !badge.Progress?
            && (badge == Exhausted <==>
                  && !IsRunning(w.rows, project, pr, sha)
                  && !HasPassed(w.rows, project, pr, sha)
                  && !LastIsTrouble(w.rows, project, pr, sha))
  {
    var w := Reaches(cfg, EMPTY, steps);
    var pr := w.handlers[i].pr;
    RunKeepsProject(cfg, EMPTY, steps, pr, project);
    GateExactly(cfg, w, i, false);
    RefusedExactly(w.rows, pr);
    RefusedMeansExhausted(w.rows, project, pr, sha, maxTurns);
  }
}
