/** Agent registration: worktree rows and the sessions behind them (`AgentService` over
    `AgentRepository`). Times are seconds. */
module Sessions {
  import opened Prelude
  import Text

  datatype Role = MainCheckout | LinkedWorktree

  datatype Worktree = Worktree(project: nat, path: string, branch: string, online: bool, role: Role)

  datatype SessionStatus = Active | Ended | TimedOut | ForceUnregistered

  datatype Session = Session(worktree: nat, status: SessionStatus, heartbeat: real)

  /** The two tables, and the next unused key of each. */
  datatype Agents = Agents(worktrees: map<nat, Worktree>, sessions: map<nat, Session>, nextWorktree: nat,
      nextSession: nat)

  const WORKTREE_PATH_MARKER := "/.claude/worktrees/"

  function RoleOf(path: string): Role {
    if Text.Find(path, WORKTREE_PATH_MARKER).Some? then LinkedWorktree else MainCheckout
  }

  predicate IsAt(w: Worktree, project: nat, path: string) {
    w.project == project && w.path == path
  }

  predicate IsActive(a: Agents, w: nat, s: nat) {
    s in a.sessions && a.sessions[s].worktree == w && a.sessions[s].status == Active
  }

  function ActiveSessions(a: Agents, w: nat): set<nat> {
    set s | s in a.sessions && IsActive(a, w, s)
  }

  ghost predicate HasActive(a: Agents, w: nat) {
    exists s :: IsActive(a, w, s)
  }

  /** The keys and constraints of the schema. */
  ghost predicate Schema(a: Agents) {
    && (forall w :: w in a.worktrees ==> w < a.nextWorktree)
    && (forall s :: s in a.sessions ==> s < a.nextSession && a.sessions[s].worktree in a.worktrees)
    && (forall v, w ::
          v in a.worktrees && w in a.worktrees && IsAt(a.worktrees[w], a.worktrees[v].project, a.worktrees[v].path) ==>
            v == w)
  }

  /** A worktree is online when it has an active session, offline when it has none, and
      never has two. */
  ghost predicate Consistent(a: Agents) {
    && Schema(a)
    && (forall w, s, t :: IsActive(a, w, s) && IsActive(a, w, t) ==> s == t)
    && (forall w :: w in a.worktrees ==> (a.worktrees[w].online <==> HasActive(a, w)))
  }

  /** The row registered for a path, if there is one. */
  ghost function RowAt(a: Agents, project: nat, path: string): (r: Option<nat>)
    ensures r.Some? ==> r.value in a.worktrees && IsAt(a.worktrees[r.value], project, path)
    ensures r.None? ==> forall w :: w in a.worktrees ==> !IsAt(a.worktrees[w], project, path)
  {
    if exists w :: w in a.worktrees && IsAt(a.worktrees[w], project, path) then
      var w :| w in a.worktrees && IsAt(a.worktrees[w], project, path);
      Some(w)
    else None
  }

  /** `upsert_worktree` on the row `at`, or on a new one: an empty branch name never replaces
      a known one. */
  function Upserted(a: Agents, at: Option<nat>, project: nat, path: string, branch: string): Agents
    requires at.Some? ==> at.value in a.worktrees
  {
    match at
    case Some(w) =>
      var row := a.worktrees[w];
      var name := if branch != "" then branch else row.branch;
      a.(worktrees := a.worktrees[w := row.(online := true, role := RoleOf(path), branch := name)])
    case None =>
      a.(worktrees := a.worktrees[a.nextWorktree := Worktree(project, path, branch, true, RoleOf(path))],
         nextWorktree := a.nextWorktree + 1)
  }

  /** Every active session of `w` gets `status`. */
  function SessionsEnded(a: Agents, w: nat, status: SessionStatus): Agents {
    a.(sessions := map s | s in a.sessions ::
         if IsActive(a, w, s) then a.sessions[s].(status := status) else a.sessions[s])
  }

  function SessionOpened(a: Agents, w: nat, now: real): Agents {
    a.(sessions := a.sessions[a.nextSession := Session(w, Active, now)], nextSession := a.nextSession + 1)
  }

  /** Rows `ws` and their sessions are gone. */
  function Deleted(a: Agents, ws: set<nat>): Agents {
    a.(worktrees := map w | w in a.worktrees && w !in ws :: a.worktrees[w],
       sessions := map s | s in a.sessions && a.sessions[s].worktree !in ws :: a.sessions[s])
  }

  /** The worktrees of the sessions `ids`. */
  function WorktreesOf(a: Agents, ids: set<nat>): set<nat> {
    set s | s in ids && s in a.sessions :: a.sessions[s].worktree
  }

  function MarkedTimedOut(sessions: map<nat, Session>, ids: set<nat>): map<nat, Session> {
    map s | s in sessions :: if s in ids then sessions[s].(status := TimedOut) else sessions[s]
  }

  function TakenOffline(worktrees: map<nat, Worktree>, ws: set<nat>): map<nat, Worktree> {
    map w | w in worktrees :: if w in ws then worktrees[w].(online := false) else worktrees[w]
  }

  /** The sessions `ids` have timed out and their worktrees are offline. */
  function Swept(a: Agents, ids: set<nat>): Agents {
    a.(sessions := MarkedTimedOut(a.sessions, ids), worktrees := TakenOffline(a.worktrees, WorktreesOf(a, ids)))
  }

  /** One session has timed out and its worktree is offline. */
  function SessionTimedOut(a: Agents, s: nat): Agents {
    if s !in a.sessions then a
    else
      var w := a.sessions[s].worktree;
      a.(sessions := a.sessions[s := a.sessions[s].(status := TimedOut)],
         worktrees := if w in a.worktrees then a.worktrees[w := a.worktrees[w].(online := false)] else a.worktrees)
  }

  /** The sessions `ids` time out one by one. */
  function SweptEach(a: Agents, ids: seq<nat>): Agents {
    if ids == [] then a else SessionTimedOut(SweptEach(a, ids[..|ids| - 1]), ids[|ids| - 1])
  }

  function Expired(a: Agents, cutoff: real): set<nat> {
    set s | s in a.sessions && a.sessions[s].status == Active && a.sessions[s].heartbeat < cutoff
  }

  function Offline(a: Agents, project: nat): set<nat> {
    set w | w in a.worktrees && a.worktrees[w].project == project && !a.worktrees[w].online
  }

  datatype Op =
    | Register(project: nat, path: string, branch: string, now: real)
    | Heartbeat(worktree: nat, now: real)
    | CheckTimeouts(cutoff: real)
    | Unregister(worktree: nat)
    | ForceUnregister(worktree: nat, caller: Option<nat>)
    | RemoveOffline(project: nat)

  /** A caller bound to another project may not force a worktree out. */
  predicate Forbidden(a: Agents, w: nat, caller: Option<nat>) {
    w in a.worktrees && caller.Some? && a.worktrees[w].project != caller.value
  }

  /** The tables after an operation. */
  ghost function Applied(a: Agents, op: Op): Agents {
    match op
    case Register(project, path, branch, now) =>
      var at := RowAt(a, project, path);
      var w := if at.Some? then at.value else a.nextWorktree;
      SessionOpened(SessionsEnded(Upserted(a, at, project, path, branch), w, Ended), w, now)
    case Heartbeat(w, now) =>
      a.(sessions := map s | s in a.sessions ::
           if IsActive(a, w, s) then a.sessions[s].(heartbeat := now) else a.sessions[s])
    case CheckTimeouts(cutoff) => Swept(a, Expired(a, cutoff))
    case Unregister(w) => Deleted(a, {w})
    case ForceUnregister(w, caller) => if Forbidden(a, w, caller) then a else Deleted(a, {w})
    case RemoveOffline(project) => Deleted(a, Offline(a, project))
  }

  // ---- What every operation keeps -------------------------------------------------

  lemma UpsertKeeps(a: Agents, at: Option<nat>, project: nat, path: string, branch: string, w: nat)
    requires Schema(a) && at == RowAt(a, project, path) && w == if at.Some? then at.value else a.nextWorktree
    ensures var u := Upserted(a, at, project, path, branch);
            && Schema(u) && u.sessions == a.sessions && w in u.worktrees && u.worktrees[w].online
            && IsAt(u.worktrees[w], project, path)
            && (forall v :: v in u.worktrees && v != w ==> v in a.worktrees && u.worktrees[v] == a.worktrees[v])
  {
  }

  /** Replacing the active session of `w` changes no other session that is active. */
  lemma ReplacedSessions(u: Agents, w: nat, now: real)
    requires forall s :: s in u.sessions ==> s < u.nextSession
    ensures var b := SessionOpened(SessionsEnded(u, w, Ended), w, now);
            && b.worktrees == u.worktrees
            && (forall s :: IsActive(b, w, s) <==> s == u.nextSession)
            && (forall v, s :: v != w ==> (IsActive(b, v, s) <==> IsActive(u, v, s)))
            && (forall s :: s in u.sessions && u.sessions[s].worktree != w ==>
                 s in b.sessions && b.sessions[s] == u.sessions[s])
            && (forall s :: s in b.sessions && s != u.nextSession ==>
                 s in u.sessions && b.sessions[s].worktree == u.sessions[s].worktree)
            && u.nextSession in b.sessions && b.sessions[u.nextSession] == Session(w, Active, now)
  {
  }

  lemma ReplaceKeeps(a: Agents, u: Agents, w: nat, now: real)
    requires Consistent(a) && Schema(u) && u.sessions == a.sessions && w in u.worktrees && u.worktrees[w].online
    requires forall v :: v in u.worktrees && v != w ==> v in a.worktrees && u.worktrees[v] == a.worktrees[v]
    ensures Consistent(SessionOpened(SessionsEnded(u, w, Ended), w, now))
  {
    var b := SessionOpened(SessionsEnded(u, w, Ended), w, now);
    ReplacedSessions(u, w, now);
    assert forall v, s :: IsActive(u, v, s) <==> IsActive(a, v, s);
    forall v | v in b.worktrees
      ensures b.worktrees[v].online <==> HasActive(b, v)
    {
      if v == w {
        assert IsActive(b, w, u.nextSession);
      } else {
        SameActive(a, b, v);
      }
    }
  }

  lemma SameActive(a: Agents, b: Agents, v: nat)
    requires forall s :: IsActive(b, v, s) <==> IsActive(a, v, s)
    ensures HasActive(b, v) <==> HasActive(a, v)
  {
  }

  lemma RegisterKeeps(a: Agents, op: Op)
    requires Consistent(a) && op.Register?
    ensures Consistent(Applied(a, op))
  {
    var at := RowAt(a, op.project, op.path);
    var w := if at.Some? then at.value else a.nextWorktree;
    UpsertKeeps(a, at, op.project, op.path, op.branch, w);
    ReplaceKeeps(a, Upserted(a, at, op.project, op.path, op.branch), w, op.now);
  }

  lemma DeleteKeeps(a: Agents, ws: set<nat>)
    requires Consistent(a)
    ensures Consistent(Deleted(a, ws))
    ensures forall v, s :: IsActive(Deleted(a, ws), v, s) <==> IsActive(a, v, s) && v !in ws
  {
    var b := Deleted(a, ws);
    assert forall v, s :: IsActive(b, v, s) <==> IsActive(a, v, s) && v !in ws;
    forall v | v in b.worktrees
      ensures b.worktrees[v].online <==> HasActive(b, v)
    {
      SameActive(a, b, v);
    }
  }

  lemma HeartbeatKeeps(a: Agents, op: Op)
    requires Consistent(a) && op.Heartbeat?
    ensures Consistent(Applied(a, op))
    ensures forall v, s :: IsActive(Applied(a, op), v, s) <==> IsActive(a, v, s)
  {
    var b := Applied(a, op);
    assert forall v, s :: IsActive(b, v, s) <==> IsActive(a, v, s);
    forall v | v in b.worktrees
      ensures b.worktrees[v].online <==> HasActive(b, v)
    {
      SameActive(a, b, v);
    }
  }

  lemma SweepKeeps(a: Agents, cutoff: real)
    requires Consistent(a)
    ensures var b := Swept(a, Expired(a, cutoff));
            && Consistent(b)
            && (forall v, s :: IsActive(b, v, s) <==> IsActive(a, v, s) && a.sessions[s].heartbeat >= cutoff)
  {
    var b := Swept(a, Expired(a, cutoff));
    assert forall v, s :: IsActive(b, v, s) <==> IsActive(a, v, s) && a.sessions[s].heartbeat >= cutoff;
    forall v | v in b.worktrees
      ensures b.worktrees[v].online <==> HasActive(b, v)
    {
      SweptRow(a, cutoff, v);
    }
  }

  /** A sweep leaves online exactly the worktrees whose active session is fresh. */
  lemma SweptRow(a: Agents, cutoff: real, v: nat)
    requires Consistent(a) && v in a.worktrees
    ensures var b := Swept(a, Expired(a, cutoff));
            && (b.worktrees[v].online <==> HasActive(b, v))
            && (b.worktrees[v].online <==> exists s :: IsActive(a, v, s) && a.sessions[s].heartbeat >= cutoff)
  {
    var b := Swept(a, Expired(a, cutoff));
    assert forall s :: IsActive(b, v, s) <==> IsActive(a, v, s) && a.sessions[s].heartbeat >= cutoff;
    assert v in WorktreesOf(a, Expired(a, cutoff)) <==>
        exists t :: IsActive(a, v, t) && a.sessions[t].heartbeat < cutoff by {
      if t: nat :| IsActive(a, v, t) && a.sessions[t].heartbeat < cutoff {
        assert t in Expired(a, cutoff);
      }
    }
    if HasActive(a, v) {
      var s: nat :| IsActive(a, v, s);
      assert a.sessions[s].heartbeat >= cutoff ==> IsActive(b, v, s);
    }
  }

  lemma OpKeepsConsistent(a: Agents, op: Op)
    requires Consistent(a)
    ensures Consistent(Applied(a, op))
  {
    match op
    case Register(_, _, _, _) => RegisterKeeps(a, op);
    case Heartbeat(_, _) => HeartbeatKeeps(a, op);
    case CheckTimeouts(cutoff) => SweepKeeps(a, cutoff);
    case Unregister(w) => DeleteKeeps(a, {w});
    case ForceUnregister(w, _) => DeleteKeeps(a, {w});
    case RemoveOffline(project) => DeleteKeeps(a, Offline(a, project));
  }

  /** What a registration does, once the row is in place. */
  lemma RegisterEffect(a: Agents, project: nat, path: string, branch: string, now: real, u: Agents,
                       w: nat)
    requires Consistent(a)
    requires var at := RowAt(a, project, path);
             u == Upserted(a, at, project, path, branch) && w == if at.Some? then at.value else a.nextWorktree
    ensures forall s, t :: IsActive(u, w, s) && IsActive(u, w, t) ==> s == t
    ensures var b := SessionOpened(SessionsEnded(u, w, Ended), w, now);
            && b == Applied(a, Register(project, path, branch, now)) && Consistent(b)
            && IsActive(b, w, u.nextSession) && u.nextSession !in a.sessions
            && w in b.worktrees && IsAt(b.worktrees[w], project, path) && b.worktrees[w].online
    ensures w in a.worktrees <==> RowAt(a, project, path).Some?
  {
    RegisterKeeps(a, Register(project, path, branch, now));
    UpsertKeeps(a, RowAt(a, project, path), project, path, branch, w);
    ReplacedSessions(u, w, now);
    assert forall s :: IsActive(u, w, s) <==> IsActive(a, w, s);
  }

  ghost function After(a: Agents, ops: seq<Op>): Agents
    decreases |ops|
  {
    if ops == [] then a else After(Applied(a, ops[0]), ops[1..])
  }

  const EMPTY := Agents(map[], map[], 0, 0)

  lemma {:induction false} RunKeepsConsistent(a: Agents, ops: seq<Op>)
    requires Consistent(a)
    ensures Consistent(After(a, ops))
    decreases |ops|
  {
    if ops != [] {
      OpKeepsConsistent(a, ops[0]);
      RunKeepsConsistent(Applied(a, ops[0]), ops[1..]);
    }
  }

  lemma CountActive(a: Agents, w: nat)
    requires Consistent(a)
    ensures |ActiveSessions(a, w)| == if HasActive(a, w) then 1 else 0
  {
    if HasActive(a, w) {
      var s: nat :| IsActive(a, w, s);
      assert ActiveSessions(a, w) == {s};
    } else {
      assert ActiveSessions(a, w) == {};
    }
  }

  /** Over every run of operations: an online worktree has exactly one active session, an
      offline one has none, and no path of a project has two rows. */
  lemma OnlineMeansOneSession(ops: seq<Op>, w: nat, v: nat)
    ensures var a := After(EMPTY, ops);
            && (w in a.worktrees ==> |ActiveSessions(a, w)| == if a.worktrees[w].online then 1 else 0)
            && (w in a.worktrees && v in a.worktrees ==>
                  IsAt(a.worktrees[v], a.worktrees[w].project, a.worktrees[w].path) ==> v == w)
  {
    assert Consistent(EMPTY);
    RunKeepsConsistent(EMPTY, ops);
    CountActive(After(EMPTY, ops), w);
  }

  // ---- Who stays online -----------------------------------------------------------

  /** The worktree has an active session whose last heartbeat is at or after `h`. */
  ghost predicate FreshSince(a: Agents, w: nat, h: real) {
    w in a.worktrees && exists s :: IsActive(a, w, s) && a.sessions[s].heartbeat >= h
  }

  /** The operation neither unregisters `w` nor looks for heartbeats later than `h`; clocks
      do not run back behind `h`. */
  ghost predicate Gentle(a: Agents, op: Op, w: nat, h: real) {
    match op
    case Register(_, _, _, now) => now >= h
    case Heartbeat(_, now) => now >= h
    case CheckTimeouts(cutoff) => cutoff <= h
    case Unregister(v) => v != w
    case ForceUnregister(v, caller) => v != w || Forbidden(a, w, caller)
    case RemoveOffline(_) => true
  }

  ghost predicate GentleRun(a: Agents, ops: seq<Op>, w: nat, h: real)
    decreases |ops|
  {
    ops == [] || (Gentle(a, ops[0], w, h) && GentleRun(Applied(a, ops[0]), ops[1..], w, h))
  }

  lemma RegisterKeepsFresh(a: Agents, op: Op, w: nat, h: real)
    requires Consistent(a) && op.Register? && op.now >= h && FreshSince(a, w, h)
    ensures FreshSince(Applied(a, op), w, h)
  {
    var at := RowAt(a, op.project, op.path);
    var v := if at.Some? then at.value else a.nextWorktree;
    var u := Upserted(a, at, op.project, op.path, op.branch);
    UpsertKeeps(a, at, op.project, op.path, op.branch, v);
    ReplacedSessions(u, v, op.now);
    var s :| IsActive(a, w, s) && a.sessions[s].heartbeat >= h;
    assert IsActive(Applied(a, op), w, if v == w then u.nextSession else s);
  }

  lemma OpKeepsFresh(a: Agents, op: Op, w: nat, h: real)
    requires Consistent(a) && Gentle(a, op, w, h) && FreshSince(a, w, h)
    ensures FreshSince(Applied(a, op), w, h)
  {
    var b := Applied(a, op);
    var s :| IsActive(a, w, s) && a.sessions[s].heartbeat >= h;
    match op
    case Register(_, _, _, _) => RegisterKeepsFresh(a, op, w, h);
    case Heartbeat(_, _) =>
      HeartbeatKeeps(a, op);
      assert IsActive(b, w, s);
    case CheckTimeouts(cutoff) =>
      SweepKeeps(a, cutoff);
      assert IsActive(b, w, s);
    case Unregister(v) =>
      DeleteKeeps(a, {v});
      assert IsActive(b, w, s);
    case ForceUnregister(v, caller) =>
      DeleteKeeps(a, {v});
      assert IsActive(b, w, s);
    case RemoveOffline(project) =>
      DeleteKeeps(a, Offline(a, project));
      assert w !in Offline(a, project);
      assert IsActive(b, w, s);
  }

  /** An agent that reported at `h` is not dropped by anyone else's doing: whatever other
      agents, sweeps for older heartbeats and clean-ups do, its worktree stays online. */
  lemma {:induction false} NobodyElseDropsIt(a: Agents, ops: seq<Op>, w: nat, h: real)
    requires Consistent(a) && FreshSince(a, w, h) && GentleRun(a, ops, w, h)
    ensures FreshSince(After(a, ops), w, h) && After(a, ops).worktrees[w].online
    decreases |ops|
  {
    if ops != [] {
      OpKeepsConsistent(a, ops[0]);
      OpKeepsFresh(a, ops[0], w, h);
      NobodyElseDropsIt(Applied(a, ops[0]), ops[1..], w, h);
    }
  }

  /** Registering the same path again reconnects: the row keeps its key, and a known branch
      name survives an empty one. */
  lemma RegisterReconnects(a: Agents, project: nat, path: string, first: string, now: real,
                           second: string, later: real)
    requires Consistent(a)
    ensures var b := Applied(a, Register(project, path, first, now));
            var c := Applied(b, Register(project, path, second, later));
            && RowAt(b, project, path).Some? && RowAt(c, project, path) == RowAt(b, project, path)
            && c.worktrees.Keys == b.worktrees.Keys
            && (second == "" ==>
                  c.worktrees[RowAt(c, project, path).value].branch
                  == b.worktrees[RowAt(c, project, path).value].branch)
            && (a.worktrees.Keys <= b.worktrees.Keys)
  {
    var b := Applied(a, Register(project, path, first, now));
    RegisteredAt(a, project, path, first, now);
    RegisterKeeps(a, Register(project, path, first, now));
    RegisteredAt(b, project, path, second, later);
    RegisterKeeps(b, Register(project, path, second, later));
  }

  lemma RegisteredAt(a: Agents, project: nat, path: string, branch: string, now: real)
    requires Consistent(a)
    ensures var at, b := RowAt(a, project, path), Applied(a, Register(project, path, branch, now));
            var w := if at.Some? then at.value else a.nextWorktree;
            && RowAt(b, project, path) == Some(w)
            && b.worktrees.Keys == a.worktrees.Keys + {w}
            && (at.Some? && branch == "" ==> b.worktrees[w].branch == a.worktrees[w].branch)
  {
    var at := RowAt(a, project, path);
    var w := if at.Some? then at.value else a.nextWorktree;
    UpsertKeeps(a, at, project, path, branch, w);
    RegisterKeeps(a, Register(project, path, branch, now));
    var b := Applied(a, Register(project, path, branch, now));
    assert b.worktrees == Upserted(a, at, project, path, branch).worktrees;
    assert IsAt(b.worktrees[w], project, path);
  }

  // ---- What each operation does, row by row ---------------------------------------

  /** Where a marker stands in the path decides the role. */
  lemma RoleExactly(path: string)
    ensures RoleOf(path) == LinkedWorktree <==> exists i: nat :: Text.OccursAt(path, "/.claude/worktrees/", i)
  {
  }

  /** The row a registration leaves: an empty branch name keeps the one that was known. */
  lemma RegisterTold(a: Agents, project: nat, path: string, branch: string, now: real, w: nat)
    requires Consistent(a)
    requires w in Applied(a, Register(project, path, branch, now)).worktrees
    requires IsAt(Applied(a, Register(project, path, branch, now)).worktrees[w], project, path)
    ensures var b := Applied(a, Register(project, path, branch, now));
            var name := if branch == "" && w in a.worktrees then a.worktrees[w].branch else branch;
            && b.worktrees.Keys == a.worktrees.Keys + {w}
            && b.worktrees[w] == Worktree(project, path, name, true, RoleOf(path))
            && forall v :: v in a.worktrees && v != w ==> b.worktrees[v] == a.worktrees[v]
  {
    var at, b := RowAt(a, project, path), Applied(a, Register(project, path, branch, now));
    RegisteredAt(a, project, path, branch, now);
    RegisterKeeps(a, Register(project, path, branch, now));
    assert b.worktrees == Upserted(a, at, project, path, branch).worktrees;
  }

  /** The session as `status` leaves it, if it is active and belongs to `w`. */
  function EndedIf(x: Session, w: nat, status: SessionStatus): Session {
    if x.worktree == w && x.status == Active then Session(w, status, x.heartbeat) else x
  }

  /** A registration ends the active session of the row and opens one new one. */
  lemma RegisterOpensSession(a: Agents, project: nat, path: string, branch: string, now: real, w: nat)
    requires Consistent(a)
    requires w in Applied(a, Register(project, path, branch, now)).worktrees
    requires IsAt(Applied(a, Register(project, path, branch, now)).worktrees[w], project, path)
    ensures var b := Applied(a, Register(project, path, branch, now));
            && (forall s :: s in a.sessions ==> s in b.sessions && b.sessions[s] == EndedIf(a.sessions[s], w, Ended))
            && exists n :: n in b.sessions && n !in a.sessions && b.sessions.Keys == a.sessions.Keys + {n}
                           && b.sessions[n] == Session(w, Active, now)
  {
    var at, b := RowAt(a, project, path), Applied(a, Register(project, path, branch, now));
    RegisteredAt(a, project, path, branch, now);
    RegisterKeeps(a, Register(project, path, branch, now));
    var u := Upserted(a, at, project, path, branch);
    assert b == SessionOpened(SessionsEnded(u, w, Ended), w, now);
    OpenedTold(u, w, now);
    assert u.sessions == a.sessions && u.nextSession == a.nextSession;
  }

  lemma OpenedTold(u: Agents, w: nat, now: real)
    requires forall s :: s in u.sessions ==> s < u.nextSession
    ensures var b := SessionOpened(SessionsEnded(u, w, Ended), w, now);
            && (forall s :: s in u.sessions ==> s in b.sessions && b.sessions[s] == EndedIf(u.sessions[s], w, Ended))
            && u.nextSession in b.sessions && u.nextSession !in u.sessions
            && b.sessions.Keys == u.sessions.Keys + {u.nextSession}
            && b.sessions[u.nextSession] == Session(w, Active, now)
  {
  }

  function BeatenIf(x: Session, w: nat, now: real): Session {
    if x.worktree == w && x.status == Active then Session(w, Active, now) else x
  }

  /** A heartbeat stamps the active session of the worktree and changes nothing else. */
  lemma HeartbeatTold(a: Agents, w: nat, now: real)
    ensures var b := Applied(a, Op.Heartbeat(w, now));
            && b.worktrees == a.worktrees && b.sessions.Keys == a.sessions.Keys
            && forall s :: s in a.sessions ==> b.sessions[s] == BeatenIf(a.sessions[s], w, now)
  {
  }

  /** A heartbeat makes the worktree fresh, if it has an active session; and it then stays
      online under everything but its own removal and sweeps for later heartbeats. */
  lemma HeartbeatRefreshes(a: Agents, w: nat, now: real, ops: seq<Op>)
    requires Consistent(a)
    ensures var b := Applied(a, Op.Heartbeat(w, now));
            && (FreshSince(b, w, now) <==> exists s :: IsActive(a, w, s))
            && (FreshSince(b, w, now) && GentleRun(b, ops, w, now) ==>
                  w in After(b, ops).worktrees && After(b, ops).worktrees[w].online)
  {
    var b := Applied(a, Op.Heartbeat(w, now));
    HeartbeatKeeps(a, Op.Heartbeat(w, now));
    if s: nat :| IsActive(a, w, s) {
      assert IsActive(b, w, s) && b.sessions[s].heartbeat == now;
    }
    if FreshSince(b, w, now) && GentleRun(b, ops, w, now) {
      NobodyElseDropsIt(b, ops, w, now);
    }
  }

  predicate IsStale(x: Session, cutoff: real) {
    x.status == Active && x.heartbeat < cutoff
  }

  ghost predicate HasStale(a: Agents, w: nat, cutoff: real) {
    exists s :: s in a.sessions && a.sessions[s].worktree == w && IsStale(a.sessions[s], cutoff)
  }

  /** A sweep times out exactly the active sessions whose heartbeat is older than the cutoff,
      and takes exactly their worktrees offline. */
  lemma SweepTold(a: Agents, cutoff: real)
    requires Schema(a)
    ensures var b := Applied(a, CheckTimeouts(cutoff));
            && b.sessions.Keys == a.sessions.Keys && b.worktrees.Keys == a.worktrees.Keys
            && forall s :: s in a.sessions ==>
                 b.sessions[s] == a.sessions[s].(status := if IsStale(a.sessions[s], cutoff) then TimedOut
                                                           else a.sessions[s].status)
    ensures var b := Applied(a, CheckTimeouts(cutoff));
            forall w :: w in a.worktrees ==>
              b.worktrees[w] == a.worktrees[w].(online := a.worktrees[w].online && !HasStale(a, w, cutoff))
  {
    assert forall s: nat :: s in Expired(a, cutoff) <==> s in a.sessions && IsStale(a.sessions[s], cutoff);
    forall w: nat
      ensures w in WorktreesOf(a, Expired(a, cutoff)) <==> HasStale(a, w, cutoff)
    {
      if s :| s in a.sessions && a.sessions[s].worktree == w && IsStale(a.sessions[s], cutoff) {
        assert s in Expired(a, cutoff);
      }
    }
  }

  /** The rows for which `gone` holds are gone with their sessions, and nothing else is. */
  ghost predicate Removed(a: Agents, b: Agents, gone: nat -> bool) {
    && (forall w: nat :: w in b.worktrees <==> w in a.worktrees && !gone(w))
    && (forall w: nat :: w in b.worktrees ==> b.worktrees[w] == a.worktrees[w])
    && (forall s: nat :: s in b.sessions <==> s in a.sessions && !gone(a.sessions[s].worktree))
    && (forall s: nat :: s in b.sessions ==> b.sessions[s] == a.sessions[s])
  }

  lemma DeletedIsRemoved(a: Agents, ws: set<nat>, gone: nat -> bool)
    requires forall w: nat :: w in ws <==> gone(w)
    ensures Removed(a, Deleted(a, ws), gone)
  {
  }

  /** Removing one row, for its own agent, and by force unless the caller is bound to another
      project. */
  lemma UnregisterTold(a: Agents, w: nat, caller: Option<nat>)
    ensures Removed(a, Applied(a, Op.Unregister(w)), (v: nat) => v == w)
    ensures var b := Applied(a, Op.ForceUnregister(w, caller));
            if w in a.worktrees && caller.Some? && caller.value != a.worktrees[w].project then b == a
            else Removed(a, b, (v: nat) => v == w)
  {
    DeletedIsRemoved(a, {w}, (v: nat) => v == w);
  }

  /** The clean-up removes exactly the offline rows of the project. */
  lemma RemoveOfflineTold(a: Agents, project: nat)
    ensures Removed(a, Applied(a, RemoveOffline(project)),
              (v: nat) => v in a.worktrees && a.worktrees[v].project == project && !a.worktrees[v].online)
  {
    DeletedIsRemoved(a, Offline(a, project),
      (v: nat) => v in a.worktrees && a.worktrees[v].project == project && !a.worktrees[v].online);
  }

  // ---- The repository and the service ---------------------------------------------

  class AgentRepository {
    var worktrees: map<nat, Worktree>
    var sessions: map<nat, Session>
    var nextWorktree: nat
    var nextSession: nat

    constructor ()
      ensures View() == EMPTY
    {
      worktrees, sessions, nextWorktree, nextSession := map[], map[], 0, 0;
    }

    function View(): Agents
      reads this
    {
      Agents(worktrees, sessions, nextWorktree, nextSession)
    }

    method UpsertWorktree(project: nat, path: string, branch: string) returns (id: nat, isNew: bool)
      requires Schema(View())
      modifies this
      ensures var at := RowAt(old(View()), project, path);
              && View() == Upserted(old(View()), at, project, path, branch)
              && isNew == at.None?
              && id == if at.Some? then at.value else old(nextWorktree)
    {
      ghost var at := RowAt(View(), project, path);
      if w :| w in worktrees && IsAt(worktrees[w], project, path) {
        id, isNew := w, false;
        var row := worktrees[w].(online := true, role := RoleOf(path));
        if branch != "" {
          row := row.(branch := branch);
        }
        worktrees := worktrees[w := row];
      } else {
        id, isNew := nextWorktree, true;
        worktrees := worktrees[id := Worktree(project, path, branch, true, RoleOf(path))];
        nextWorktree := nextWorktree + 1;
      }
    }

    method GetActiveSession(w: nat) returns (s: Option<nat>)
      requires forall s, t :: IsActive(View(), w, s) && IsActive(View(), w, t) ==> s == t
      ensures s.Some? ==> IsActive(View(), w, s.value)
      ensures s.None? ==> !HasActive(View(), w)
    {
      var ids := ActiveSessions(View(), w);
      s := None;
      if t :| t in ids {
        s := Some(t);
      } else {
        assert forall t: nat :: IsActive(View(), w, t) ==> t in ids;
      }
    }

    method EndSession(s: nat, status: SessionStatus)
      modifies this`sessions
      ensures sessions ==
                if s in old(sessions) then old(sessions)[s := old(sessions)[s].(status := status)] else old(sessions)
    {
      if s in sessions {
        sessions := sessions[s := sessions[s].(status := status)];
      }
    }

    method CreateSession(w: nat, now: real) returns (s: nat)
      modifies this
      ensures View() == SessionOpened(old(View()), w, now) && s == old(nextSession)
    {
      s := nextSession;
      sessions := sessions[s := Session(w, Active, now)];
      nextSession := nextSession + 1;
    }

    method SetWorktreeOffline(w: nat)
      modifies this`worktrees
      ensures worktrees ==
                if w in old(worktrees) then old(worktrees)[w := old(worktrees)[w].(online := false)] else old(worktrees)
    {
      if w in worktrees {
        worktrees := worktrees[w := worktrees[w].(online := false)];
      }
    }

    method DeleteWorktree(w: nat)
      modifies this
      ensures View() == Deleted(old(View()), {w})
    {
      sessions := map s | s in sessions && sessions[s].worktree != w :: sessions[s];
      worktrees := worktrees - {w};
    }
  }

  datatype ForceResult = Unregistered | AlreadyUnregistered | PermissionDenied

  class AgentService {
    const repo: AgentRepository

    constructor (repo: AgentRepository)
      ensures this.repo == repo
    {
      this.repo := repo;
    }

    /** End the active session of `w`, if it has one. */
    method EndActive(w: nat, status: SessionStatus)
      requires forall s, t :: IsActive(repo.View(), w, s) && IsActive(repo.View(), w, t) ==> s == t
      modifies repo`sessions
      ensures repo.View() == SessionsEnded(old(repo.View()), w, status)
    {
      var s := repo.GetActiveSession(w);
      if s.Some? {
        repo.EndSession(s.value, status);
      }
    }

    method Register(project: nat, path: string, branch: string, now: real)
      returns (worktree: nat, session: nat, resumed: bool)
      requires Consistent(repo.View())
      modifies repo
      ensures repo.View() == Applied(old(repo.View()), Op.Register(project, path, branch, now)) &&
                Consistent(repo.View())
      ensures IsActive(repo.View(), worktree, session) && session !in old(repo.sessions)
      ensures worktree in repo.worktrees && IsAt(repo.worktrees[worktree], project, path) &&
                repo.worktrees[worktree].online
      ensures resumed <==> worktree in old(repo.worktrees)
    {
      ghost var a := repo.View();
      var isNew;
      worktree, isNew := repo.UpsertWorktree(project, path, branch);
      RegisterEffect(a, project, path, branch, now, repo.View(), worktree);
      EndActive(worktree, Ended);
      session := repo.CreateSession(worktree, now);
      resumed := !isNew;
    }

    /** `heartbeat`; false when the worktree has no active session. */
    method Heartbeat(worktree: nat, now: real) returns (ok: bool)
      requires Consistent(repo.View())
      modifies repo
      ensures repo.View() == Applied(old(repo.View()), Op.Heartbeat(worktree, now)) && Consistent(repo.View())
      ensures ok <==> HasActive(old(repo.View()), worktree)
    {
      HeartbeatKeeps(repo.View(), Op.Heartbeat(worktree, now));
      var s := repo.GetActiveSession(worktree);
      if s.None? {
        return false;
      }
      repo.sessions := repo.sessions[s.value := repo.sessions[s.value].(heartbeat := now)];
      return true;
    }

    method TimeOutEach(timedOut: seq<nat>) returns (affected: seq<nat>)
      requires forall s :: s in timedOut ==> s in repo.sessions
      modifies repo
      ensures repo.View() == SweptEach(old(repo.View()), timedOut)
      ensures |affected| == |timedOut|
      ensures forall i :: 0 <= i < |affected| ==> affected[i] == old(repo.sessions)[timedOut[i]].worktree
    {
      affected := [];
      for i := 0 to |timedOut|
        invariant repo.View() == SweptEach(old(repo.View()), timedOut[..i])
        invariant forall s :: s in old(repo.sessions) ==>
                    s in repo.sessions && repo.sessions[s].worktree == old(repo.sessions)[s].worktree
        invariant |affected| == i
        invariant forall j :: 0 <= j < i ==> affected[j] == old(repo.sessions)[timedOut[j]].worktree
      {
        var s := timedOut[i];
        assert s in timedOut;
        assert timedOut[..i + 1][..i] == timedOut[..i];
        var w := repo.sessions[s].worktree;
        repo.EndSession(s, TimedOut);
        repo.SetWorktreeOffline(w);
        affected := affected + [w];
      }
      assert timedOut[..|timedOut|] == timedOut;
    }

    /** `check_heartbeat_timeouts`: the worktrees it took offline. */
    method CheckHeartbeatTimeouts(cutoff: real) returns (affected: seq<nat>)
      requires Consistent(repo.View())
      modifies repo
      ensures repo.View() == Applied(old(repo.View()), CheckTimeouts(cutoff)) && Consistent(repo.View())
      ensures Ids(affected) == WorktreesOf(old(repo.View()), Expired(old(repo.View()), cutoff))
    {
      ghost var a := repo.View();
      var timedOut := Fetch(Expired(repo.View(), cutoff));
      SweepKeeps(a, cutoff);
      SweptEachIsSwept(a, timedOut);
      assert Ids(timedOut) == Expired(a, cutoff);
      affected := TimeOutEach(timedOut);
      AffectedWorktrees(a, timedOut, affected);
    }

    /** `unregister`; false when there is no such worktree. */
    method Unregister(worktree: nat) returns (ok: bool)
      requires Consistent(repo.View())
      modifies repo
      ensures repo.View() == Applied(old(repo.View()), Op.Unregister(worktree)) && Consistent(repo.View())
      ensures ok <==> worktree in old(repo.worktrees)
    {
      ghost var a := repo.View();
      DeleteKeeps(a, {worktree});
      if worktree !in repo.worktrees {
        DeletedNone(a, {worktree});
        return false;
      }
      EndActive(worktree, Ended);
      repo.DeleteWorktree(worktree);
      EndedThenDeleted(a, worktree, Ended);
      return true;
    }

    /** `force_unregister`. */
    method ForceUnregister(worktree: nat, caller: Option<nat>) returns (r: ForceResult)
      requires Consistent(repo.View())
      modifies repo
      ensures repo.View() == Applied(old(repo.View()), Op.ForceUnregister(worktree, caller)) && Consistent(repo.View())
      ensures r == if worktree !in old(repo.worktrees) then AlreadyUnregistered
                   else if Forbidden(old(repo.View()), worktree, caller) then PermissionDenied
                   else Unregistered
    {
      ghost var a := repo.View();
      DeleteKeeps(a, {worktree});
      if worktree !in repo.worktrees {
        DeletedNone(a, {worktree});
        return AlreadyUnregistered;
      }
      if caller.Some? && repo.worktrees[worktree].project != caller.value {
        return PermissionDenied;
      }
      EndActive(worktree, ForceUnregistered);
      repo.DeleteWorktree(worktree);
      EndedThenDeleted(a, worktree, ForceUnregistered);
      return Unregistered;
    }

    /** `remove_offline_agents`. */
    method RemoveOfflineAgents(project: nat) returns (count: nat)
      requires Consistent(repo.View())
      modifies repo
      ensures repo.View() == Applied(old(repo.View()), RemoveOffline(project)) && Consistent(repo.View())
      ensures count == |Offline(old(repo.View()), project)|
    {
      ghost var a := repo.View();
      var offline := Fetch(Offline(repo.View(), project));
      DeletedNone(a, {});
      for i := 0 to |offline|
        invariant repo.View() == Deleted(a, Ids(offline[..i])) && Consistent(repo.View())
      {
        ghost var b := repo.View();
        assert offline[..i + 1] == offline[..i] + [offline[i]];
        EndActive(offline[i], Ended);
        repo.DeleteWorktree(offline[i]);
        EndedThenDeleted(b, offline[i], Ended);
        DeletedMore(a, offline[..i], offline[i]);
        DeleteKeeps(b, {offline[i]});
      }
      assert offline[..|offline|] == offline;
      assert Ids(offline) == Offline(a, project);
      count := |offline|;
      assert |multiset(offline)| == |multiset(Offline(a, project))|;
    }
  }

  function Ids(s: seq<nat>): set<nat> {
    set x | x in s
  }

  /** Timing out the sessions one by one is the same as all at once. */
  lemma {:induction false} SweptEachIsSwept(a: Agents, ids: seq<nat>)
    requires Schema(a) && forall s :: s in ids ==> s in a.sessions
    ensures SweptEach(a, ids) == Swept(a, Ids(ids))
  {
    if ids == [] {
      SweptNone(a);
    } else {
      var rest, s := ids[..|ids| - 1], ids[|ids| - 1];
      SweptEachIsSwept(a, rest);
      assert ids == rest + [s];
      assert Ids(ids) == Ids(rest) + {s};
      SweptStep(a, Ids(rest), s);
    }
  }

  lemma SweptNone(a: Agents)
    ensures Swept(a, Ids([])) == a
  {
    assert WorktreesOf(a, Ids([])) == {};
  }

  lemma MarkOneMore(sessions: map<nat, Session>, ids: set<nat>, s: nat)
    requires s in sessions
    ensures var marked := MarkedTimedOut(sessions, ids);
            && s in marked && marked[s].worktree == sessions[s].worktree
            && MarkedTimedOut(sessions, ids + {s}) == marked[s := marked[s].(status := TimedOut)]
  {
  }

  lemma TakeOneMore(worktrees: map<nat, Worktree>, ws: set<nat>, w: nat)
    requires w in worktrees
    ensures var taken := TakenOffline(worktrees, ws);
            w in taken && TakenOffline(worktrees, ws + {w}) == taken[w := taken[w].(online := false)]
  {
  }

  lemma SweptStep(a: Agents, ids: set<nat>, s: nat)
    requires Schema(a) && s in a.sessions
    ensures Swept(a, ids + {s}) == SessionTimedOut(Swept(a, ids), s)
  {
    var w := a.sessions[s].worktree;
    assert WorktreesOf(a, ids + {s}) == WorktreesOf(a, ids) + {w};
    MarkOneMore(a.sessions, ids, s);
    TakeOneMore(a.worktrees, WorktreesOf(a, ids), w);
  }

  lemma AffectedWorktrees(a: Agents, ids: seq<nat>, affected: seq<nat>)
    requires |affected| == |ids| && forall s :: s in ids ==> s in a.sessions
    requires forall i :: 0 <= i < |ids| ==> affected[i] == a.sessions[ids[i]].worktree
    ensures Ids(affected) == WorktreesOf(a, Ids(ids))
  {
    forall w
      ensures w in Ids(affected) <==> w in WorktreesOf(a, Ids(ids))
    {
      if w in Ids(affected) {
        var i :| 0 <= i < |affected| && affected[i] == w;
        assert ids[i] in Ids(ids);
      }
      if w in WorktreesOf(a, Ids(ids)) {
        var s :| s in Ids(ids) && a.sessions[s].worktree == w;
        var i :| 0 <= i < |ids| && ids[i] == s;
        assert affected[i] == w;
      }
    }
  }

  lemma DeletedNone(a: Agents, ws: set<nat>)
    requires Schema(a) && forall w :: w in ws ==> w !in a.worktrees
    ensures Deleted(a, ws) == a && Ids([]) == {}
  {
  }

  lemma EndedThenDeleted(a: Agents, w: nat, status: SessionStatus)
    ensures Deleted(SessionsEnded(a, w, status), {w}) == Deleted(a, {w})
  {
  }

  lemma DeletedMore(a: Agents, done: seq<nat>, w: nat)
    ensures Deleted(Deleted(a, Ids(done)), {w}) == Deleted(a, Ids(done + [w]))
  {
    assert Ids(done + [w]) == Ids(done) + {w};
  }

  /** Forcing a worktree out twice is the same as once. */
  lemma ForceIsIdempotent(a: Agents, w: nat, caller: Option<nat>)
    requires Consistent(a)
    ensures var once := Applied(a, Op.ForceUnregister(w, caller));
            Applied(once, Op.ForceUnregister(w, caller)) == once
  {
    DeleteKeeps(a, {w});
    DeletedNone(Deleted(a, {w}), {w});
  }
}
