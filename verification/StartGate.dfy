/** The gate in front of `in_progress`: what blocks a task, in which order the blockers are
    listed, and when some task can always start (`get_unresolved_blockers`,
    `_collect_pipeline_blockers`, `start_task`, `update_task_status`). */
module StartGate {
  import opened Prelude
  import opened Graphs
  import opened Dependencies

  predicate HasText(s: Option<string>) {
    s.Some? && s.value != ""
  }

  /** `_task_resolved`. */
  predicate Resolved(t: Task) {
    t.status == Done || (t.status == Review && HasText(t.prUrl))
  }

  /** `_pipeline_resolved`: a spec or plan in review needs its artifact as well. */
  predicate PipelineResolved(t: Task) {
    t.status == Done
    || (t.status == Review && HasText(t.prUrl) &&
         !((t.taskType == Spec || t.taskType == Plan) && !HasText(t.artifactPath)))
  }

  function Predecessor(kind: TaskType): Option<TaskType> {
    match kind
    case Plan => Some(Spec)
    case Impl => Some(Plan)
    case _ => None
  }

  function Incomplete(b: Board, f: nat): set<nat> {
    set t | t in b.tasks && b.tasks[t].feature == f && !Resolved(b.tasks[t])
  }

  function BlockingFeatures(b: Board, f: nat): set<nat> {
    set d | d in Successors(b.featureEdges, f) && d in b.features && Incomplete(b, d) != {}
  }

  function BlockingTasks(b: Board, t: nat): set<nat> {
    set u | u in Successors(b.taskEdges, t) && u in b.tasks && !Resolved(b.tasks[u])
  }

  predicate Precedes(b: Board, t: Task, u: nat) {
    u in b.tasks && b.tasks[u].feature == t.feature && Predecessor(t.taskType) == Some(b.tasks[u].taskType)
  }

  function BlockingPredecessors(b: Board, t: Task): set<nat> {
    set u | u in b.tasks && Precedes(b, t, u) && !PipelineResolved(b.tasks[u])
  }

  datatype Reason = ArtifactMissing | NotDone

  datatype Blocker =
    | FeatureBlocker(id: nat, number: nat, incomplete: seq<nat>)
    | TaskBlocker(id: nat, number: nat, status: Status)
    | PipelineBlocker(id: nat, number: nat, predecessor: TaskType, status: Status, reason: Reason)

  datatype Kind = ByFeature | ByTask | ByPipeline

  function KindOf(x: Blocker): Kind {
    match x
    case FeatureBlocker(_, _, _) => ByFeature
    case TaskBlocker(_, _, _) => ByTask
    case PipelineBlocker(_, _, _, _, _) => ByPipeline
  }

  function NumberOf(b: Board, kind: Kind, id: nat): nat {
    if kind == ByFeature then (if id in b.features then b.features[id].number else 0)
    else (if id in b.tasks then b.tasks[id].number else 0)
  }

  /** `numbers` lists the numbers of the unresolved tasks of feature `f`, in order. */
  ghost predicate ListsIncomplete(b: Board, f: nat, numbers: seq<nat>) {
    && SortedBy(numbers, (n: nat) => n as real)
    && |numbers| == |Incomplete(b, f)|
    && forall n :: n in numbers <==> exists t :: t in Incomplete(b, f) && b.tasks[t].number == n
  }

  /** A blocker says what is true of the row it names. */
  ghost predicate Truthful(b: Board, x: Blocker) {
    && x.number == NumberOf(b, KindOf(x), x.id)
    && match x
       case FeatureBlocker(id, _, incomplete) => ListsIncomplete(b, id, incomplete)
       case TaskBlocker(id, _, status) => id in b.tasks && b.tasks[id].status == status
       case PipelineBlocker(id, _, predecessor, status, reason) =>
         && id in b.tasks && b.tasks[id].status == status && b.tasks[id].taskType == predecessor
         && (reason == ArtifactMissing <==>
               status == Review && HasText(b.tasks[id].prUrl) && !HasText(b.tasks[id].artifactPath))
  }

  /** `s` lists the rows `expected`, each once, by number. */
  ghost predicate Section(b: Board, kind: Kind, s: seq<Blocker>, expected: set<nat>) {
    && (forall x :: x in s ==> KindOf(x) == kind && Truthful(b, x))
    && (forall i, j :: 0 <= i < j < |s| ==> s[i].number <= s[j].number && s[i].id != s[j].id)
    && (forall x :: x in s ==> x.id in expected)
    && (forall id :: id in expected ==> exists x :: x in s && x.id == id)
  }

  /** The whole list: features, then tasks, then pipeline predecessors. */
  ghost predicate Gate(b: Board, t: Task, id: nat, s: seq<Blocker>) {
    exists f, u, p :: (
      && s == f + u + p
      && Section(b, ByFeature, f, BlockingFeatures(b, t.feature))
      && Section(b, ByTask, u, BlockingTasks(b, id))
      && Section(b, ByPipeline, p, BlockingPredecessors(b, t)))
  }

  /** Everything upstream of task `id` is resolved. */
  ghost predicate Clear(b: Board, id: nat)
    requires id in b.tasks
  {
    var t := b.tasks[id];
    && (forall f, u :: (t.feature, f) in b.featureEdges && u in b.tasks && b.tasks[u].feature == f ==>
         Resolved(b.tasks[u]))
    && (forall u :: (id, u) in b.taskEdges && u in b.tasks ==> Resolved(b.tasks[u]))
    && (forall u :: u in b.tasks && Precedes(b, t, u) ==> PipelineResolved(b.tasks[u]))
  }

  lemma SectionEmpty(b: Board, kind: Kind, s: seq<Blocker>, expected: set<nat>)
    requires Section(b, kind, s, expected)
    ensures s == [] <==> expected == {}
  {
    if s != [] {
      assert s[0] in s;
    }
  }

  lemma ClearMeansNoBlockers(b: Board, id: nat)
    requires ForeignKeys(b) && id in b.tasks
    ensures Clear(b, id) <==>
            && BlockingFeatures(b, b.tasks[id].feature) == {}
            && BlockingTasks(b, id) == {}
            && BlockingPredecessors(b, b.tasks[id]) == {}
  {
    var t := b.tasks[id];
    SuccessorsExactly(b.featureEdges, t.feature);
    SuccessorsExactly(b.taskEdges, id);
    assert BlockingTasks(b, id) == {} <==>
        forall u :: (id, u) in b.taskEdges && u in b.tasks ==> Resolved(b.tasks[u]) by {
      assert forall u :: u in BlockingTasks(b, id) <==> (id, u) in b.taskEdges && u in b.tasks && !Resolved(b.tasks[u]);
    }
    assert BlockingPredecessors(b, t) == {} <==>
           forall u :: u in b.tasks && Precedes(b, t, u) ==> PipelineResolved(b.tasks[u]) by {
      assert forall u :: u in BlockingPredecessors(b, t) <==>
        u in b.tasks && Precedes(b, t, u) && !PipelineResolved(b.tasks[u]);
    }
    FeaturesClear(b, t.feature);
  }

  lemma FeaturesClear(b: Board, feature: nat)
    requires ForeignKeys(b)
    ensures BlockingFeatures(b, feature) == {} <==>
            forall f, u :: (feature, f) in b.featureEdges && u in b.tasks && b.tasks[u].feature == f ==>
                Resolved(b.tasks[u])
  {
    SuccessorsExactly(b.featureEdges, feature);
    if BlockingFeatures(b, feature) == {} {
      forall f, u | (feature, f) in b.featureEdges && u in b.tasks && b.tasks[u].feature == f
        ensures Resolved(b.tasks[u])
      {
        assert f !in BlockingFeatures(b, feature);
        assert u !in Incomplete(b, f);
      }
    } else {
      var f :| f in BlockingFeatures(b, feature);
      var u :| u in Incomplete(b, f);
      assert (feature, f) in b.featureEdges && b.tasks[u].feature == f && !Resolved(b.tasks[u]);
    }
  }

  /** The blocker list is empty exactly when everything upstream is resolved. */
  lemma GateOpensExactly(b: Board, id: nat, s: seq<Blocker>)
    requires ForeignKeys(b) && id in b.tasks && Gate(b, b.tasks[id], id, s)
    ensures s == [] <==> Clear(b, id)
  {
    var t := b.tasks[id];
    var f, u, p :| (
      && s == f + u + p
      && Section(b, ByFeature, f, BlockingFeatures(b, t.feature))
      && Section(b, ByTask, u, BlockingTasks(b, id))
      && Section(b, ByPipeline, p, BlockingPredecessors(b, t)));
    SectionEmpty(b, ByFeature, f, BlockingFeatures(b, t.feature));
    SectionEmpty(b, ByTask, u, BlockingTasks(b, id));
    SectionEmpty(b, ByPipeline, p, BlockingPredecessors(b, t));
    ClearMeansNoBlockers(b, id);
    assert s == [] <==> |f| + |u| + |p| == 0;
  }

  // ---- Collecting the blockers ----------------------------------------------------

  /** `ids` are the rows of `all` that satisfy `keep`, each once, sorted by number. */
  ghost predicate Ordered(b: Board, kind: Kind, ids: seq<nat>, expected: set<nat>) {
    && (forall i, j :: 0 <= i < j < |ids| ==>
         ids[i] != ids[j] && NumberOf(b, kind, ids[i]) <= NumberOf(b, kind, ids[j]))
    && (forall id :: id in ids <==> id in expected)
  }

  lemma {:induction false} FilterWithin<T(!new)>(s: seq<T>, keep: T -> bool)
    ensures multiset(Filter(s, keep)) <= multiset(s)
  {
    if s != [] {
      FilterWithin(s[1..], keep);
      assert s == [s[0]] + s[1..];
    }
  }

  /** Sorting the kept rows of a query lists each of them once. */
  lemma SortedRows(b: Board, kind: Kind, rows: seq<nat>, all: set<nat>, keep: nat -> bool,
                   key: nat -> real, expected: set<nat>)
    requires multiset(rows) == multiset(all)
    requires forall id :: id in expected <==> id in all && keep(id)
    requires forall id :: key(id) == NumberOf(b, kind, id) as real
    ensures Ordered(b, kind, SortBy(Filter(rows, keep), key), expected)
    ensures multiset(SortBy(Filter(rows, keep), key)) == multiset(expected)
  {
    var kept := Filter(rows, keep);
    var ids := SortBy(kept, key);
    FilterWithin(rows, keep);
    ListsOnce(rows, all);
    SortBySorts(kept, key);
    SameElements(ids, kept);
    assert multiset(ids) == multiset(expected) by {
      forall id
        ensures multiset(ids)[id] == multiset(expected)[id]
      {
        assert multiset(kept)[id] <= multiset(all)[id] <= 1;
        assert id in ids <==> id in expected;
      }
    }
    ListsOnce(ids, expected);
    forall i, j | 0 <= i < j < |ids|
      ensures NumberOf(b, kind, ids[i]) <= NumberOf(b, kind, ids[j])
    {
      assert key(ids[i]) <= key(ids[j]);
    }
  }

  function Among(ids: seq<nat>, blocks: set<nat>): set<nat> {
    set id | id in ids && id in blocks
  }

  /** The part of a section that the first `i` rows account for. */
  ghost predicate Listed(b: Board, kind: Kind, s: seq<Blocker>, ids: seq<nat>, i: nat, blocks: set<nat>)
    requires i <= |ids|
  {
    Section(b, kind, s, Among(ids[..i], blocks))
  }

  lemma SectionAppends(b: Board, kind: Kind, s: seq<Blocker>, before: set<nat>, x: Blocker)
    requires Section(b, kind, s, before) && KindOf(x) == kind && Truthful(b, x)
    requires forall y :: y in s ==> y.number <= x.number && y.id != x.id
    ensures Section(b, kind, s + [x], before + {x.id})
  {
    var s' := s + [x];
    forall i, j | 0 <= i < j < |s'|
      ensures s'[i].number <= s'[j].number && s'[i].id != s'[j].id
    {
      assert s'[i] == s[i] && s[i] in s;
    }
    forall id | id in before + {x.id}
      ensures exists y :: y in s' && y.id == id
    {
      if id == x.id {
        assert x in s';
      } else {
        var y :| y in s && y.id == id;
        assert y in s';
      }
    }
  }

  lemma SectionGrows(b: Board, kind: Kind, s: seq<Blocker>, ids: seq<nat>, i: nat, blocks: set<nat>,
                     found: Option<Blocker>, all: set<nat>)
    requires i < |ids| && Ordered(b, kind, ids, all) && Listed(b, kind, s, ids, i, blocks)
    requires found.Some? <==> ids[i] in blocks
    requires found.Some? ==> found.value.id == ids[i] && KindOf(found.value) == kind && Truthful(b, found.value)
    ensures Listed(b, kind, if found.Some? then s + [found.value] else s, ids, i + 1, blocks)
  {
    assert ids[..i + 1] == ids[..i] + [ids[i]];
    var before, after := Among(ids[..i], blocks), Among(ids[..i + 1], blocks);
    if found.Some? {
      assert after == before + {ids[i]};
      forall x | x in s
        ensures x.id != ids[i] && x.number <= NumberOf(b, kind, ids[i])
      {
        var j :| 0 <= j < i && ids[j] == x.id;
      }
      SectionAppends(b, kind, s, before, found.value);
    } else {
      assert after == before;
    }
  }

  lemma SectionWhole(b: Board, kind: Kind, s: seq<Blocker>, ids: seq<nat>, blocks: set<nat>,
                     all: set<nat>)
    requires Ordered(b, kind, ids, all) && Listed(b, kind, s, ids, |ids|, blocks) && blocks <= all
    ensures Section(b, kind, s, blocks)
  {
    assert ids[..|ids|] == ids;
    assert Among(ids, blocks) == blocks;
  }

  method SortRows(repo: BoardRepository, kind: Kind, rows: seq<nat>, keep: nat -> bool,
                  ghost all: set<nat>, ghost expected: set<nat>)
    returns (ids: seq<nat>)
    requires multiset(rows) == multiset(all)
    requires forall id :: id in expected <==> id in all && keep(id)
    ensures Ordered(repo.View(), kind, ids, expected)
    ensures multiset(ids) == multiset(expected)
  {
    var b := repo.View();
    var key := (id: nat) => NumberOf(b, kind, id) as real;
    SortedRows(b, kind, rows, all, keep, key, expected);
    ids := SortBy(Filter(rows, keep), key);
  }

  /** The feature part of `get_unresolved_blockers`. */
  method FeatureBlockers(repo: BoardRepository, feature: nat) returns (s: seq<Blocker>)
    ensures Section(repo.View(), ByFeature, s, BlockingFeatures(repo.View(), feature))
  {
    var b := repo.View();
    var rows := repo.featureDependencies.DependenciesOf(feature);
    ghost var all := Successors(b.featureEdges, feature);
    ghost var present := set f | f in all && f in b.features;
    var ids := SortRows(repo, ByFeature, rows, (f: nat) => f in b.features, all, present);
    ghost var blocks := BlockingFeatures(b, feature);
    s := [];
    for i := 0 to |ids|
      invariant Listed(b, ByFeature, s, ids, i, blocks)
    {
      ghost var before := s;
      assert ids[i] in ids;
      var numbers := IncompleteNumbers(repo, ids[i]);
      if numbers != [] {
        s := s + [FeatureBlocker(ids[i], b.features[ids[i]].number, numbers)];
      }
      SectionGrows(b, ByFeature, before, ids, i, blocks,
                   if numbers == [] then None else Some(FeatureBlocker(ids[i], b.features[ids[i]].number, numbers)),
                   present);
    }
    SectionWhole(b, ByFeature, s, ids, blocks, present);
  }

  /** The numbers of the unresolved tasks of a feature, sorted. */
  method IncompleteNumbers(repo: BoardRepository, feature: nat) returns (numbers: seq<nat>)
    ensures ListsIncomplete(repo.View(), feature, numbers)
    ensures numbers == [] <==> Incomplete(repo.View(), feature) == {}
  {
    var b := repo.View();
    var rows := repo.GetTasksForFeature(feature);
    ghost var incomplete := Incomplete(b, feature);
    var ids := SortRows(repo, ByTask, rows, (t: nat) => t in b.tasks && !Resolved(b.tasks[t]),
                        TasksOf(b.tasks, feature), incomplete);
    numbers := seq(|ids|, i requires 0 <= i < |ids| => NumberOf(b, ByTask, ids[i]));
    assert |multiset(ids)| == |multiset(incomplete)|;
    forall n
      ensures n in numbers <==> exists t :: t in incomplete && b.tasks[t].number == n
    {
      if n in numbers {
        var i :| 0 <= i < |numbers| && numbers[i] == n;
        assert ids[i] in incomplete;
      }
      if t :| t in incomplete && b.tasks[t].number == n {
        assert t in ids;
        var i :| 0 <= i < |ids| && ids[i] == t;
        assert numbers[i] == n;
      }
    }
  }

  /** The task part of `get_unresolved_blockers`. */
  method TaskBlockers(repo: BoardRepository, task: nat) returns (s: seq<Blocker>)
    ensures Section(repo.View(), ByTask, s, BlockingTasks(repo.View(), task))
  {
    var b := repo.View();
    var rows := repo.taskDependencies.DependenciesOf(task);
    ghost var all := Successors(b.taskEdges, task);
    ghost var present := set t | t in all && t in b.tasks;
    var ids := SortRows(repo, ByTask, rows, (t: nat) => t in b.tasks, all, present);
    ghost var blocks := BlockingTasks(b, task);
    s := [];
    for i := 0 to |ids|
      invariant Listed(b, ByTask, s, ids, i, blocks)
    {
      ghost var before := s;
      assert ids[i] in ids;
      var t := b.tasks[ids[i]];
      if !Resolved(t) {
        s := s + [TaskBlocker(ids[i], t.number, t.status)];
      }
      SectionGrows(b, ByTask, before, ids, i, blocks,
                   if Resolved(t) then None else Some(TaskBlocker(ids[i], t.number, t.status)), present);
    }
    SectionWhole(b, ByTask, s, ids, blocks, present);
  }

  /** `_collect_pipeline_blockers`. */
  method PipelineBlockers(repo: BoardRepository, task: Task) returns (s: seq<Blocker>)
    ensures Section(repo.View(), ByPipeline, s, BlockingPredecessors(repo.View(), task))
  {
    var b := repo.View();
    var predecessor := Predecessor(task.taskType);
    if predecessor.None? {
      return [];
    }
    var rows := repo.GetTasksForFeature(task.feature);
    ghost var all := TasksOf(b.tasks, task.feature);
    ghost var present := set u | u in all && Precedes(b, task, u);
    var ids := SortRows(repo, ByPipeline, rows, (u: nat) => Precedes(b, task, u), all, present);
    ghost var blocks := BlockingPredecessors(b, task);
    s := [];
    for i := 0 to |ids|
      invariant Listed(b, ByPipeline, s, ids, i, blocks)
    {
      ghost var before := s;
      assert ids[i] in ids;
      var p := b.tasks[ids[i]];
      var reason :=
        if p.status == Review && HasText(p.prUrl) && !HasText(p.artifactPath) then ArtifactMissing else NotDone;
      if !PipelineResolved(p) {
        s := s + [PipelineBlocker(ids[i], p.number, predecessor.value, p.status, reason)];
      }
      SectionGrows(b, ByPipeline, before, ids, i, blocks,
                   if PipelineResolved(p) then None
                   else Some(PipelineBlocker(ids[i], p.number, predecessor.value, p.status, reason)), present);
    }
    SectionWhole(b, ByPipeline, s, ids, blocks, present);
  }

  /** `_collect_all_blockers`, with `get_unresolved_blockers` in front. */
  method CollectAllBlockers(repo: BoardRepository, id: nat, task: Task) returns (s: seq<Blocker>)
    requires id in repo.tasks && repo.tasks[id] == task && task.feature in repo.features
    ensures Gate(repo.View(), task, id, s)
  {
    var f := FeatureBlockers(repo, task.feature);
    var u := TaskBlockers(repo, id);
    var p := PipelineBlockers(repo, task);
    s := f + u + p;
  }

  // ---- The two agent routes -------------------------------------------------------

  /** Other tasks the worktree is still working on. */
  function ActiveTasks(b: Board, worktree: nat, id: nat): set<nat> {
    set t | t in b.tasks && b.tasks[t].worktree == Some(worktree) && t != id
            && (b.tasks[t].status == InProgress || b.tasks[t].status == Review) && !b.tasks[t].prMerged
  }

  datatype StartResult =
    | Started
    | WorktreeNotFound
    | TaskNotFound
    | Busy(active: seq<nat>)
    | Blocked(blockers: seq<Blocker>)

  /** Which result `start_task` gives on board `b`. */
  ghost predicate StartsAs(b: Board, worktrees: set<nat>, worktree: nat, id: nat, r: StartResult) {
    if worktree !in worktrees then r == WorktreeNotFound
    else if id !in b.tasks then r == TaskNotFound
    else if ActiveTasks(b, worktree, id) != {} then
      r.Busy? && multiset(r.active) == multiset(ActiveTasks(b, worktree, id))
    else if Clear(b, id) then r == Started
    else r.Blocked? && r.blockers != [] && Gate(b, b.tasks[id], id, r.blockers)
  }

  /** Which result `update_task_status` with target `in_progress` gives. */
  ghost predicate MovesAs(b: Board, worktrees: set<nat>, worktree: nat, id: nat, r: StartResult) {
    if worktree !in worktrees then r == WorktreeNotFound
    else if id !in b.tasks then r == TaskNotFound
    else if Clear(b, id) then r == Started
    else r.Blocked? && r.blockers != [] && Gate(b, b.tasks[id], id, r.blockers)
  }

  class TaskLifecycle {
    const board: BoardRepository
    /** The current task of every registered worktree. */
    var currentTasks: map<nat, Option<nat>>

    constructor (board: BoardRepository)
      ensures this.board == board && currentTasks == map[]
    {
      this.board := board;
      currentTasks := map[];
    }

    method StartTask(worktree: nat, id: nat) returns (r: StartResult)
      requires ForeignKeys(board.View())
      modifies this, board`tasks
      ensures StartsAs(old(board.View()), old(currentTasks).Keys, worktree, id, r)
      ensures board.View() == if r != Started then old(board.View()) else
                old(board.View()).(tasks :=
                  old(board.tasks)[id := old(board.tasks[id]).(worktree := Some(worktree), status := InProgress)])
      ensures currentTasks == if r != Started then old(currentTasks) else old(currentTasks)[worktree := Some(id)]
    {
      if worktree !in currentTasks {
        return WorktreeNotFound;
      }
      var task := board.GetTask(id);
      if task.None? {
        return TaskNotFound;
      }
      var active := Fetch(ActiveTasks(board.View(), worktree, id));
      assert active == [] <==> |multiset(active)| == 0;
      if active != [] {
        return Busy(active);
      }
      var blockers := CollectAllBlockers(board, id, task.value);
      GateOpensExactly(board.View(), id, blockers);
      if blockers != [] {
        return Blocked(blockers);
      }
      board.tasks := board.tasks[id := task.value.(worktree := Some(worktree), status := InProgress)];
      currentTasks := currentTasks[worktree := Some(id)];
      return Started;
    }

    /** `update_task_status` with target `in_progress`. */
    method MoveToInProgress(worktree: nat, id: nat, prUrl: Option<string>) returns (r: StartResult)
      requires ForeignKeys(board.View())
      modifies board`tasks
      ensures MovesAs(old(board.View()), currentTasks.Keys, worktree, id, r)
      ensures board.View() == if r != Started then old(board.View()) else
                old(board.View()).(tasks := old(board.tasks)[id := old(board.tasks[id]).(
                  status := InProgress, prUrl := if prUrl.Some? then prUrl else old(board.tasks[id]).prUrl)])
    {
      if worktree !in currentTasks {
        return WorktreeNotFound;
      }
      var task := board.GetTask(id);
      if task.None? {
        return TaskNotFound;
      }
      var blockers := CollectAllBlockers(board, id, task.value);
      GateOpensExactly(board.View(), id, blockers);
      if blockers != [] {
        return Blocked(blockers);
      }
      board.tasks := board.tasks[id := task.value.(
        status := InProgress, prUrl := if prUrl.Some? then prUrl else task.value.prUrl)];
      return Started;
    }
  }

  // ---- When a task starts, and what is listed when it does not --------------------

  /** Done, or in review with a pull request. */
  predicate Landed(t: Task) {
    t.status == Done || (t.status == Review && t.prUrl.Some? && t.prUrl.value != "")
  }

  /** Landed, and if it is in review its artifact is known. */
  predicate LandedWithArtifact(t: Task) {
    Landed(t) && (t.status == Review ==> t.artifactPath.Some? && t.artifactPath.value != "")
  }

  /** A plan follows the specs of its feature, and an implementation its plans. */
  predicate Follows(t: Task, p: Task) {
    && t.feature == p.feature
    && ((t.taskType == Plan && p.taskType == Spec) || (t.taskType == Impl && p.taskType == Plan))
  }

  ghost predicate NothingOpen(b: Board, id: nat)
    requires id in b.tasks
  {
    forall u :: u in b.tasks ==>
      && ((b.tasks[id].feature, b.tasks[u].feature) in b.featureEdges || (id, u) in b.taskEdges ==> Landed(b.tasks[u]))
      && (Follows(b.tasks[id], b.tasks[u]) ==> LandedWithArtifact(b.tasks[u]))
  }

  /** The worktree is at work on task `u`, which is in progress, or in review and not merged. */
  predicate WorksOn(b: Board, worktree: nat, u: nat) {
    && u in b.tasks && b.tasks[u].worktree == Some(worktree)
    && (b.tasks[u].status == InProgress || b.tasks[u].status == Review) && !b.tasks[u].prMerged
  }

  /** The worktree still works on another task. */
  ghost predicate IsBusy(b: Board, worktree: nat, id: nat) {
    exists u :: u != id && WorksOn(b, worktree, u)
  }

  lemma ActiveTold(b: Board, worktree: nat, id: nat)
    ensures forall u: nat :: u in ActiveTasks(b, worktree, id) <==> u != id && WorksOn(b, worktree, u)
    ensures IsBusy(b, worktree, id) <==> ActiveTasks(b, worktree, id) != {}
  {
    if u :| u in ActiveTasks(b, worktree, id) {
      assert WorksOn(b, worktree, u);
    }
  }

  lemma PrecedesTold(b: Board, t: Task, u: nat)
    requires u in b.tasks
    ensures Precedes(b, t, u) <==> Follows(t, b.tasks[u])
    ensures Precedes(b, t, u) ==> (PipelineResolved(b.tasks[u]) <==> LandedWithArtifact(b.tasks[u]))
    ensures Resolved(b.tasks[u]) <==> Landed(b.tasks[u])
  {
  }

  lemma ClearTold(b: Board, id: nat)
    requires id in b.tasks
    ensures Clear(b, id) <==> NothingOpen(b, id)
  {
    var t := b.tasks[id];
    forall u | u in b.tasks
      ensures Precedes(b, t, u) <==> Follows(t, b.tasks[u])
      ensures Precedes(b, t, u) ==> (PipelineResolved(b.tasks[u]) <==> LandedWithArtifact(b.tasks[u]))
      ensures Resolved(b.tasks[u]) <==> Landed(b.tasks[u])
    {
      PrecedesTold(b, t, u);
    }
  }

  /** A task of the board starts exactly when the worktree is registered and works on nothing
      else, and everything upstream has landed, specs and plans with their artifact. */
  lemma StartsExactly(b: Board, worktrees: set<nat>, worktree: nat, id: nat)
    requires id in b.tasks
    ensures StartsAs(b, worktrees, worktree, id, Started) <==>
              worktree in worktrees && !IsBusy(b, worktree, id) && NothingOpen(b, id)
    ensures MovesAs(b, worktrees, worktree, id, Started) <==> worktree in worktrees && NothingOpen(b, id)
  {
    ClearTold(b, id);
    ActiveTold(b, worktree, id);
  }

  /** Which refusal it is: first the worktree, then the task, then other work, then blockers. */
  lemma RefusedInOrder(b: Board, worktrees: set<nat>, worktree: nat, id: nat, r: StartResult)
    requires StartsAs(b, worktrees, worktree, id, r)
    ensures r == WorktreeNotFound <==> worktree !in worktrees
    ensures r == TaskNotFound <==> worktree in worktrees && id !in b.tasks
    ensures r.Busy? <==> worktree in worktrees && id in b.tasks && IsBusy(b, worktree, id)
    ensures r.Busy? ==> forall u :: u in r.active <==> u != id && WorksOn(b, worktree, u)
    ensures r.Blocked? <==> worktree in worktrees && id in b.tasks && !IsBusy(b, worktree, id) && !NothingOpen(b, id)
  {
    if id in b.tasks {
      ClearTold(b, id);
    }
    ActiveTold(b, worktree, id);
    if r.Busy? {
      ListsOnce(r.active, ActiveTasks(b, worktree, id));
    }
  }

  lemma GateParts(b: Board, t: Task, id: nat, s: seq<Blocker>)
    returns (f: seq<Blocker>, u: seq<Blocker>, p: seq<Blocker>)
    requires Gate(b, t, id, s)
    ensures s == f + u + p
    ensures Section(b, ByFeature, f, BlockingFeatures(b, t.feature))
    ensures Section(b, ByTask, u, BlockingTasks(b, id))
    ensures Section(b, ByPipeline, p, BlockingPredecessors(b, t))
  {
    f, u, p :| (
      && s == f + u + p
      && Section(b, ByFeature, f, BlockingFeatures(b, t.feature))
      && Section(b, ByTask, u, BlockingTasks(b, id))
      && Section(b, ByPipeline, p, BlockingPredecessors(b, t)));
  }

  lemma KindsApart(s: seq<Blocker>, f: seq<Blocker>, u: seq<Blocker>, p: seq<Blocker>)
    requires s == f + u + p
    requires forall x :: x in f ==> KindOf(x) == ByFeature
    requires forall x :: x in u ==> KindOf(x) == ByTask
    requires forall x :: x in p ==> KindOf(x) == ByPipeline
    ensures forall x :: x in f <==> x in s && x.FeatureBlocker?
    ensures forall x :: x in u <==> x in s && x.TaskBlocker?
    ensures forall x :: x in p <==> x in s && x.PipelineBlocker?
  {
    assert forall x :: x in s <==> x in f || x in u || x in p;
  }

  /** The blockers of one kind, as the gate lists them. */
  ghost predicate ListsKind(b: Board, kind: Kind, s: seq<Blocker>, expected: set<nat>) {
    && (forall x :: x in s && KindOf(x) == kind ==> x.id in expected && Truthful(b, x))
    && (forall id :: id in expected ==> exists x :: x in s && KindOf(x) == kind && x.id == id)
  }

  lemma PartLists(b: Board, kind: Kind, s: seq<Blocker>, part: seq<Blocker>, expected: set<nat>)
    requires Section(b, kind, part, expected) && forall x :: x in part <==> x in s && KindOf(x) == kind
    ensures ListsKind(b, kind, s, expected)
  {
    forall id | id in expected
      ensures exists x :: x in s && KindOf(x) == kind && x.id == id
    {
      var x :| x in part && x.id == id;
      assert x in s && KindOf(x) == kind;
    }
  }

  lemma GateLists(b: Board, t: Task, id: nat, s: seq<Blocker>)
    requires Gate(b, t, id, s)
    ensures ListsKind(b, ByFeature, s, BlockingFeatures(b, t.feature))
    ensures ListsKind(b, ByTask, s, BlockingTasks(b, id))
    ensures ListsKind(b, ByPipeline, s, BlockingPredecessors(b, t))
  {
    var f, u, p := GateParts(b, t, id, s);
    KindsApart(s, f, u, p);
    PartLists(b, ByFeature, s, f, BlockingFeatures(b, t.feature));
    PartLists(b, ByTask, s, u, BlockingTasks(b, id));
    PartLists(b, ByPipeline, s, p, BlockingPredecessors(b, t));
  }

  /** What the list says of the predecessor `u`: that its artifact is missing when it is in
      review with a pull request, else that it is not done. */
  function PredecessorLine(b: Board, u: nat): Blocker
    requires u in b.tasks
  {
    var p := b.tasks[u];
    PipelineBlocker(u, p.number, p.taskType, p.status,
      if p.status == Review && p.prUrl.Some? && p.prUrl.value != "" then ArtifactMissing else NotDone)
  }

  lemma TruthfulPredecessor(b: Board, t: Task, x: Blocker)
    requires x.PipelineBlocker? && x.id in BlockingPredecessors(b, t) && Truthful(b, x)
    ensures x == PredecessorLine(b, x.id)
  {
    PrecedesTold(b, t, x.id);
  }

  /** A predecessor is listed exactly when it has not landed with its artifact, and what is
      listed is true. */
  lemma PredecessorsListed(b: Board, id: nat, s: seq<Blocker>, u: nat)
    requires id in b.tasks && u in b.tasks && Gate(b, b.tasks[id], id, s)
    ensures PredecessorLine(b, u) in s <==> Follows(b.tasks[id], b.tasks[u]) && !LandedWithArtifact(b.tasks[u])
    ensures forall x :: x in s && x.PipelineBlocker? && x.id == u ==> x == PredecessorLine(b, u)
  {
    var t := b.tasks[id];
    GateLists(b, t, id, s);
    PrecedesTold(b, t, u);
    assert u in BlockingPredecessors(b, t) <==> Precedes(b, t, u) && !PipelineResolved(b.tasks[u]);
    forall x | x in s && x.PipelineBlocker? && x.id == u
      ensures x == PredecessorLine(b, u)
    {
      assert KindOf(x) == ByPipeline;
      TruthfulPredecessor(b, t, x);
    }
    assert KindOf(PredecessorLine(b, u)) == ByPipeline;
  }

  /** An upstream task is listed exactly when it has not landed. */
  lemma UpstreamTasksListed(b: Board, id: nat, s: seq<Blocker>, u: nat)
    requires id in b.tasks && u in b.tasks && Gate(b, b.tasks[id], id, s)
    ensures TaskBlocker(u, b.tasks[u].number, b.tasks[u].status) in s <==>
              (id, u) in b.taskEdges && !Landed(b.tasks[u])
    ensures forall x :: x in s && x.TaskBlocker? && x.id == u ==>
              x == TaskBlocker(u, b.tasks[u].number, b.tasks[u].status)
  {
    GateLists(b, b.tasks[id], id, s);
    SuccessorsExactly(b.taskEdges, id);
    PrecedesTold(b, b.tasks[id], u);
    assert u in BlockingTasks(b, id) <==> (id, u) in b.taskEdges && !Resolved(b.tasks[u]);
    assert KindOf(TaskBlocker(u, b.tasks[u].number, b.tasks[u].status)) == ByTask;
    assert forall x :: x in s && x.TaskBlocker? ==> KindOf(x) == ByTask;
  }

  /** An upstream feature is listed exactly when one of its tasks has not landed, with the
      numbers of those tasks in order. */
  lemma UpstreamFeaturesListed(b: Board, id: nat, s: seq<Blocker>, f: nat)
    requires id in b.tasks && f in b.features && Gate(b, b.tasks[id], id, s)
    ensures (exists x :: x in s && x.FeatureBlocker? && x.id == f) <==>
              (b.tasks[id].feature, f) in b.featureEdges
              && exists u :: u in b.tasks && b.tasks[u].feature == f && !Landed(b.tasks[u])
    ensures forall x :: x in s && x.FeatureBlocker? && x.id == f ==>
              && x.number == b.features[f].number
              && (forall i, j :: 0 <= i < j < |x.incomplete| ==> x.incomplete[i] <= x.incomplete[j])
              && forall n :: n in x.incomplete <==>
                   exists u :: u in b.tasks && b.tasks[u].feature == f && !Landed(b.tasks[u]) && b.tasks[u].number == n
  {
    var t := b.tasks[id];
    GateLists(b, t, id, s);
    SuccessorsExactly(b.featureEdges, t.feature);
    forall u: nat
      ensures u in Incomplete(b, f) <==> u in b.tasks && b.tasks[u].feature == f && !Landed(b.tasks[u])
    {
      if u in b.tasks {
        PrecedesTold(b, t, u);
      }
    }
    assert f in BlockingFeatures(b, t.feature) <==> (t.feature, f) in b.featureEdges && Incomplete(b, f) != {};
    assert forall x :: x in s && x.FeatureBlocker? ==> KindOf(x) == ByFeature;
    forall x | x in s && x.FeatureBlocker? && x.id == f
      ensures x.number == b.features[f].number && ListsIncomplete(b, f, x.incomplete)
      ensures forall i, j :: 0 <= i < j < |x.incomplete| ==> x.incomplete[i] <= x.incomplete[j]
    {
      assert Truthful(b, x);
      SortedNumbers(x.incomplete);
    }
  }

  lemma SortedNumbers(numbers: seq<nat>)
    ensures SortedBy(numbers, (n: nat) => n as real) ==>
              forall i, j :: 0 <= i < j < |numbers| ==> numbers[i] <= numbers[j]
  {
    if SortedBy(numbers, (n: nat) => n as real) {
      forall i, j | 0 <= i < j < |numbers|
        ensures numbers[i] <= numbers[j]
      {
        assert numbers[i] as real <= numbers[j] as real;
      }
    }
  }

  /** So a spec in review with a pull request and no artifact holds its plan back, and the
      list says why. */
  lemma MissingArtifactIsListed(b: Board, id: nat, s: seq<Blocker>, u: nat)
    requires id in b.tasks && u in b.tasks && Gate(b, b.tasks[id], id, s)
    requires Follows(b.tasks[id], b.tasks[u]) && b.tasks[u].status == Review
    requires b.tasks[u].prUrl.Some? && b.tasks[u].prUrl.value != ""
    requires b.tasks[u].artifactPath == None || b.tasks[u].artifactPath == Some("")
    ensures PipelineBlocker(u, b.tasks[u].number, b.tasks[u].taskType, Review, ArtifactMissing) in s
    ensures !NothingOpen(b, id)
  {
    PredecessorsListed(b, id, s, u);
  }

  function Rank(x: Blocker): nat {
    match x
    case FeatureBlocker(_, _, _) => 0
    case TaskBlocker(_, _, _) => 1
    case PipelineBlocker(_, _, _, _, _) => 2
  }

  ghost predicate InOrder(s: seq<Blocker>, rank: nat) {
    && (forall i :: 0 <= i < |s| ==> Rank(s[i]) == rank)
    && forall i, j :: 0 <= i < j < |s| ==> s[i].number <= s[j].number && s[i].id != s[j].id
  }

  lemma PartInOrder(b: Board, kind: Kind, s: seq<Blocker>, expected: set<nat>)
    requires Section(b, kind, s, expected)
    ensures InOrder(s, match kind case ByFeature => 0 case ByTask => 1 case ByPipeline => 2)
  {
    forall i | 0 <= i < |s|
      ensures KindOf(s[i]) == kind
    {
      assert s[i] in s;
    }
  }

  lemma JoinedInOrder(s: seq<Blocker>, f: seq<Blocker>, u: seq<Blocker>, p: seq<Blocker>, i: nat, j: nat)
    requires s == f + u + p && InOrder(f, 0) && InOrder(u, 1) && InOrder(p, 2) && i < j < |s|
    ensures Rank(s[i]) < Rank(s[j]) ||
              (Rank(s[i]) == Rank(s[j]) && s[i].number <= s[j].number && s[i].id != s[j].id)
  {
    assert forall k :: 0 <= k < |s| ==>
      s[k] == if k < |f| then f[k] else if k < |f| + |u| then u[k - |f|] else p[k - |f| - |u|];
  }

  /** Features are listed before tasks and tasks before predecessors, each by number and none
      twice. */
  lemma ListedInOrder(b: Board, t: Task, id: nat, s: seq<Blocker>, i: nat, j: nat)
    requires Gate(b, t, id, s) && i < j < |s|
    ensures Rank(s[i]) < Rank(s[j]) ||
              (Rank(s[i]) == Rank(s[j]) && s[i].number <= s[j].number && s[i].id != s[j].id)
  {
    var f, u, p := GateParts(b, t, id, s);
    PartInOrder(b, ByFeature, f, BlockingFeatures(b, t.feature));
    PartInOrder(b, ByTask, u, BlockingTasks(b, id));
    PartInOrder(b, ByPipeline, p, BlockingPredecessors(b, t));
    JoinedInOrder(s, f, u, p, i, j);
  }

  // ---- Progress -------------------------------------------------------------------

  /** Whenever some task is unresolved, some unresolved task has no task-level blocker. */
  lemma TaskLevelProgress(b: Board) returns (id: nat)
    requires Acyclic(b.taskEdges) && exists t :: t in b.tasks && !Resolved(b.tasks[t])
    ensures id in b.tasks && !Resolved(b.tasks[id]) && BlockingTasks(b, id) == {}
  {
    var open := set t | t in b.tasks && !Resolved(b.tasks[t]);
    var t :| t in b.tasks && !Resolved(b.tasks[t]);
    id := MinimalFrom(b.taskEdges, open, t);
    SuccessorsExactly(b.taskEdges, id);
    assert forall u :: u in BlockingTasks(b, id) ==> u in open && (id, u) in b.taskEdges;
  }

  /** Whenever some feature is incomplete, some incomplete feature has no feature-level
      blocker. */
  lemma FeatureLevelProgress(b: Board) returns (f: nat)
    requires Acyclic(b.featureEdges) && exists g :: g in b.features && Incomplete(b, g) != {}
    ensures f in b.features && Incomplete(b, f) != {} && BlockingFeatures(b, f) == {}
  {
    var open := set g | g in b.features && Incomplete(b, g) != {};
    var g :| g in b.features && Incomplete(b, g) != {};
    f := MinimalFrom(b.featureEdges, open, g);
    SuccessorsExactly(b.featureEdges, f);
    assert forall d :: d in BlockingFeatures(b, f) ==> d in open && (f, d) in b.featureEdges;
  }

  /** Task `t` waits for task `u` on one of the three levels. */
  predicate WaitsFor(b: Board, t: nat, u: nat) {
    && t in b.tasks
    && u in b.tasks
    && ((b.tasks[t].feature, b.tasks[u].feature) in b.featureEdges
        || (t, u) in b.taskEdges
        || Precedes(b, b.tasks[t], u))
  }

  /** The three levels taken together as one graph of tasks. */
  function Combined(b: Board): Edges {
    set t, u | t in b.tasks && u in b.tasks && WaitsFor(b, t, u) :: (t, u)
  }

  /** The task is in neither of the columns that `start_task` and a pull request lead to. */
  predicate NotStarted(t: Task) {
    t.status.Other?
  }

  /** No task is under way: each has either not started or is resolved. */
  ghost predicate Idle(b: Board) {
    forall t :: t in b.tasks ==> NotStarted(b.tasks[t]) || PipelineResolved(b.tasks[t])
  }

  /** Nothing is under way exactly when every task is in neither column, or done, or in review
      with its pull request and, for a spec or a plan, its artifact. */
  lemma IdleExactly(b: Board)
    ensures Idle(b) <==> forall t :: t in b.tasks ==>
              b.tasks[t].status.Other?
              || (if b.tasks[t].taskType in {Spec, Plan} then LandedWithArtifact(b.tasks[t]) else Landed(b.tasks[t]))
  {
  }

  ghost predicate SomeTaskWaits(b: Board) {
    exists t :: t in b.tasks && NotStarted(b.tasks[t])
  }

  ghost predicate SomeTaskCanStart(b: Board) {
    exists t :: t in b.tasks && NotStarted(b.tasks[t]) && Clear(b, t)
  }

  /** The tasks differ at most in status, pull request, artifact and assignment. */
  ghost predicate SamePlan(tasks: map<nat, Task>, tasks': map<nat, Task>) {
    && tasks.Keys == tasks'.Keys
    && forall t :: t in tasks ==> tasks[t].feature == tasks'[t].feature && tasks[t].taskType == tasks'[t].taskType
  }

  /** A task that waits for no open task can start. */
  lemma NothingOpenAbove(b: Board, id: nat)
    requires id in b.tasks
    requires forall u :: u in b.tasks && !PipelineResolved(b.tasks[u]) ==> !WaitsFor(b, id, u)
    ensures Clear(b, id)
  {
    var t := b.tasks[id];
    forall f, u | (t.feature, f) in b.featureEdges && u in b.tasks && b.tasks[u].feature == f
      ensures Resolved(b.tasks[u])
    {
      assert WaitsFor(b, id, u);
    }
    forall u | (id, u) in b.taskEdges && u in b.tasks
      ensures Resolved(b.tasks[u])
    {
      assert WaitsFor(b, id, u);
    }
    forall u | u in b.tasks && Precedes(b, t, u)
      ensures PipelineResolved(b.tasks[u])
    {
      assert WaitsFor(b, id, u);
    }
  }

  /** A task that waits for an unresolved one cannot start. */
  lemma WaitingBlocks(b: Board, id: nat, u: nat)
    requires WaitsFor(b, id, u) && !Resolved(b.tasks[u])
    ensures !Clear(b, id)
  {
  }

  lemma CombinedEdges(b: Board)
    ensures forall t: nat, u: nat :: (t, u) in Combined(b) <==> WaitsFor(b, t, u)
    ensures forall e :: e in Combined(b) ==> e.0 in b.tasks.Keys && e.1 in b.tasks.Keys
  {
  }

  /** When the combined graph is acyclic, no board is stuck: as long as a task has not
      started, one that has not started can start, or one is under way. */
  lemma CombinedProgress(b: Board)
    requires Acyclic(Combined(b)) && SomeTaskWaits(b)
    ensures SomeTaskCanStart(b) || !Idle(b)
  {
    var open := set t | t in b.tasks && !PipelineResolved(b.tasks[t]);
    var t :| t in b.tasks && NotStarted(b.tasks[t]);
    CombinedEdges(b);
    var id := MinimalFrom(Combined(b), open, t);
    NothingOpenAbove(b, id);
  }

  lemma PlanDecidesWait(b: Board, tasks: map<nat, Task>, t: nat, u: nat)
    requires SamePlan(b.tasks, tasks)
    ensures WaitsFor(b.(tasks := tasks), t, u) <==> WaitsFor(b, t, u)
  {
  }

  lemma PlanDecidesWaiting(b: Board, tasks: map<nat, Task>)
    requires SamePlan(b.tasks, tasks)
    ensures Combined(b.(tasks := tasks)) == Combined(b)
  {
    CombinedEdges(b);
    CombinedEdges(b.(tasks := tasks));
    forall t: nat, u: nat
      ensures (t, u) in Combined(b.(tasks := tasks)) <==> (t, u) in Combined(b)
    {
      PlanDecidesWait(b, tasks, t, u);
    }
  }

  /** The tasks of `trap` in the backlog and all others done. */
  ghost function Trapped(tasks: map<nat, Task>, trap: set<nat>): (r: map<nat, Task>)
    ensures SamePlan(tasks, r)
    ensures forall t :: t in tasks ==> if t in trap then NotStarted(r[t]) else Resolved(r[t]) && PipelineResolved(r[t])
  {
    map t | t in tasks :: tasks[t].(status := if t in trap then Other("backlog") else Done)
  }

  /** Some task has not started, none is under way, and none can start. */
  ghost predicate Stuck(b: Board) {
    SomeTaskWaits(b) && Idle(b) && !SomeTaskCanStart(b)
  }

  /** If every task of a nonempty set waits for another of the set, the plan can get stuck. */
  lemma TrapIsStuck(b: Board, trap: set<nat>) returns (tasks: map<nat, Task>)
    requires trap != {} && trap <= b.tasks.Keys
    requires forall t {:trigger StepsInto(Combined(b), trap, t)} :: t in trap ==> StepsInto(Combined(b), trap, t)
    ensures SamePlan(b.tasks, tasks) && Stuck(b.(tasks := tasks))
  {
    tasks := Trapped(b.tasks, trap);
    var stuck := b.(tasks := tasks);
    var t :| t in trap;
    assert t in stuck.tasks && NotStarted(stuck.tasks[t]);
    CombinedEdges(b);
    forall id | id in stuck.tasks && NotStarted(stuck.tasks[id])
      ensures !Clear(stuck, id)
    {
      assert StepsInto(Combined(b), trap, id);
      var u :| u in trap && (id, u) in Combined(b);
      PlanDecidesWait(b, tasks, id, u);
      assert u in stuck.tasks && !Resolved(stuck.tasks[u]);
      WaitingBlocks(stuck, id, u);
    }
  }

  /** The combined gate never gets stuck, whatever the statuses, exactly when the combined
      graph is acyclic; two acyclic edge tables alone do not give that. */
  lemma NeverStuckExactly(b: Board)
    ensures Acyclic(Combined(b)) <==> forall tasks :: SamePlan(b.tasks, tasks) ==> !Stuck(b.(tasks := tasks))
  {
    CombinedEdges(b);
    if Acyclic(Combined(b)) {
      forall tasks | SamePlan(b.tasks, tasks)
        ensures !Stuck(b.(tasks := tasks))
      {
        PlanDecidesWaiting(b, tasks);
        if SomeTaskWaits(b.(tasks := tasks)) {
          CombinedProgress(b.(tasks := tasks));
        }
      }
    } else {
      var trap := CycleIsTrap(Combined(b), b.tasks.Keys);
      var tasks := TrapIsStuck(b, trap);
    }
  }

  /** How `Clear` and `Stuck` read through the two agent routes: a worktree with no other
      active task can start a waiting task, and any worktree can move it to `in_progress`,
      exactly when it is clear, which it is not on a stuck board. */
  lemma AgentsStartClearTasks(b: Board, worktrees: set<nat>, worktree: nat, id: nat, r: StartResult)
    requires worktree in worktrees && id in b.tasks && NotStarted(b.tasks[id])
    ensures StartsAs(b, worktrees, worktree, id, r) ==>
              (r == Started <==> ActiveTasks(b, worktree, id) == {} && Clear(b, id))
    ensures MovesAs(b, worktrees, worktree, id, r) ==> (r == Started <==> Clear(b, id))
    ensures Stuck(b) ==> !Clear(b, id)
  {
  }

  /** So on a board where some task can start, an agent with a free worktree can start one. */
  lemma SomeAgentStarts(b: Board, worktrees: set<nat>, worktree: nat) returns (id: nat)
    requires SomeTaskCanStart(b) && worktree in worktrees
    requires forall t :: t in b.tasks && b.tasks[t].worktree == Some(worktree) ==>
               b.tasks[t].status != InProgress && b.tasks[t].status != Review
    ensures id in b.tasks && NotStarted(b.tasks[id]) && StartsAs(b, worktrees, worktree, id, Started)
  {
    id :| id in b.tasks && NotStarted(b.tasks[id]) && Clear(b, id);
    assert ActiveTasks(b, worktree, id) == {};
  }

  /** Feature 1 depends on feature 2, and the only task of feature 2 on the only task of
      feature 1. */
  const CROSSED := Board(
    map[1 := 1],
    map[1 := Feature(1, 1), 2 := Feature(1, 2)],
    map[10 := Task(1, 10, Plain, Other("backlog"), None, false, None, None),
        20 := Task(2, 20, Plain, Other("backlog"), None, false, None, None)],
    {(1, 2)},
    {(20, 10)})

  /** Both guards accept these edges on the board without them. */
  lemma CrossedEdgesAreAccepted()
    ensures ForeignKeys(CROSSED)
    ensures Refusal({}, 1, 2, FeatureProject(CROSSED, 1), FeatureProject(CROSSED, 2)) == None
    ensures Refusal({}, 20, 10, TaskProject(CROSSED, 20), TaskProject(CROSSED, 10)) == None
    ensures Acyclic(CROSSED.featureEdges) && Acyclic(CROSSED.taskEdges)
  {
    assert {} + {(1, 2)} == CROSSED.featureEdges && {} + {(20, 10)} == CROSSED.taskEdges;
  }

  /** Yet both tasks are in the backlog for good: neither can start. */
  lemma CrossedEdgesDeadlock()
    ensures Stuck(CROSSED)
  {
    assert 10 in CROSSED.tasks && NotStarted(CROSSED.tasks[10]);
    WaitingBlocks(CROSSED, 10, 20);
    WaitingBlocks(CROSSED, 20, 10);
  }
}
