/** The board's dependency edges: the cycle search, the guarded insertions and what they
    keep (`BoardService` over `BoardRepository`). */
module Dependencies {
  import opened Prelude
  import opened Graphs

  datatype Status = Done | Review | InProgress | Other(name: string)

  datatype TaskType = Plain | Spec | Plan | Impl

  datatype Feature = Feature(epic: nat, number: nat)

  datatype Task = Task(
    feature: nat,
    number: nat,
    taskType: TaskType,
    status: Status,
    prUrl: Option<string>,
    prMerged: bool,
    artifactPath: Option<string>,
    worktree: Option<nat>
  )

  /** Everything the board stores about features, tasks and their edges; `epics` gives the
      project of each epic. */
  datatype Board = Board(
    epics: map<nat, nat>,
    features: map<nat, Feature>,
    tasks: map<nat, Task>,
    featureEdges: Edges,
    taskEdges: Edges
  )

  /** The foreign keys of the schema. */
  ghost predicate ForeignKeys(b: Board) {
    && (forall f :: f in b.features ==> b.features[f].epic in b.epics)
    && (forall t :: t in b.tasks ==> b.tasks[t].feature in b.features)
    && (forall e :: e in b.featureEdges ==> e.0 in b.features && e.1 in b.features)
    && (forall e :: e in b.taskEdges ==> e.0 in b.tasks && e.1 in b.tasks)
  }

  function TasksOf(tasks: map<nat, Task>, feature: nat): set<nat> {
    set t | t in tasks && tasks[t].feature == feature
  }

  function Successors(edges: Edges, a: nat): set<nat> {
    set e | e in edges && e.0 == a :: e.1
  }

  lemma SuccessorsExactly(edges: Edges, a: nat)
    ensures forall d: nat :: d in Successors(edges, a) <==> (a, d) in edges
  {
    assert forall d: nat :: (a, d) in edges ==> (a, d).1 in Successors(edges, a);
  }

  /** A list of the elements of a set has no repetition. */
  lemma ListsOnce<T>(s: seq<T>, elements: set<T>)
    requires multiset(s) == multiset(elements)
    ensures forall x :: x in s <==> x in elements
    ensures forall i, j :: 0 <= i < j < |s| ==> s[i] != s[j]
  {
    forall x
      ensures x in s <==> x in elements
    {
      assert x in s <==> x in multiset(s);
    }
    forall i, j | 0 <= i < j < |s|
      ensures s[i] != s[j]
    {
      assert s == s[..j] + s[j..];
      assert s[i] in s[..j] && s[j] in s[j..];
      assert multiset(s)[s[i]] == multiset(s[..j])[s[i]] + multiset(s[j..])[s[i]];
    }
  }

  /** The rows of one dependency table. */
  class DependencyTable {
    var edges: Edges

    constructor ()
      ensures edges == {}
    {
      edges := {};
    }

    /** The direct dependencies of `id`, each once, in any order. */
    method DependenciesOf(id: nat) returns (ids: seq<nat>)
      ensures multiset(ids) == multiset(Successors(edges, id))
    {
      ids := Fetch(Successors(edges, id));
    }

    method Exists(a: nat, b: nat) returns (found: bool)
      ensures found <==> (a, b) in edges
    {
      found := (a, b) in edges;
    }

    method Add(a: nat, b: nat)
      modifies this
      ensures edges == old(edges) + {(a, b)}
    {
      edges := edges + {(a, b)};
    }

    method Remove(a: nat, b: nat) returns (removed: bool)
      modifies this
      ensures removed <==> (a, b) in old(edges)
      ensures edges == old(edges) - {(a, b)}
    {
      removed := (a, b) in edges;
      edges := edges - {(a, b)};
    }
  }

  /** `has_cycle` and `has_task_cycle`: a search from `dependsOn` for `id`. It ends, and finds
      `id` exactly when `id` can be reached. */
  method HasCycle(table: DependencyTable, id: nat, dependsOn: nat) returns (found: bool)
    ensures found <==> Reaches(table.edges, dependsOn, id)
  {
    ghost var edges := table.edges;
    ghost var nodes := {dependsOn} + set e | e in edges :: e.1;
    var visited: set<nat> := {};
    var stack := [dependsOn];
    ReachesSelf(edges, dependsOn);
    while stack != []
      invariant visited <= nodes && forall x :: x in stack ==> x in nodes
      invariant forall x :: x in stack ==> Reaches(edges, dependsOn, x)
      invariant id !in visited && (dependsOn in visited || dependsOn in stack)
      invariant forall v: nat, d: nat :: v in visited && (v, d) in edges ==> d in visited || d in stack
      decreases nodes - visited, |stack|
    {
      var current := stack[|stack| - 1];
      assert stack == stack[..|stack| - 1] + [current];
      stack := stack[..|stack| - 1];
      if current == id {
        return true;
      }
      if current in visited {
        continue;
      }
      visited := visited + {current};
      var deps := table.DependenciesOf(current);
      ListsOnce(deps, Successors(edges, current));
      SuccessorsExactly(edges, current);
      forall d | d in deps
        ensures d in nodes && Reaches(edges, dependsOn, d)
      {
        assert (current, d).1 in nodes;
        ReachesEdge(edges, current, d);
        ReachesJoin(edges, dependsOn, current, d);
      }
      stack := stack + deps;
    }
    if Reaches(edges, dependsOn, id) {
      var n: nat :| ReachesIn(edges, dependsOn, id, n);
      ClosedHoldsWalk(edges, visited, dependsOn, id, n);
    }
    return false;
  }

  datatype DependencyError = DependsOnItself | NotFound | OtherProject | Duplicate | WouldCycle

  /** `_task_project_id`. */
  function TaskProject(b: Board, t: nat): Option<nat> {
    if t !in b.tasks then None
    else if b.tasks[t].feature !in b.features then None
    else if b.features[b.tasks[t].feature].epic !in b.epics then None
    else Some(b.epics[b.features[b.tasks[t].feature].epic])
  }

  function FeatureProject(b: Board, f: nat): Option<nat> {
    if f !in b.features || b.features[f].epic !in b.epics then None
    else Some(b.epics[b.features[f].epic])
  }

  /** Why an edge from `a` to `b` is refused, if it is; `projectA` and `projectB` are the
      projects of its ends. */
  ghost function Refusal(edges: Edges, a: nat, b: nat, projectA: Option<nat>,
                         projectB: Option<nat>): Option<DependencyError>
  {
    if a == b then Some(DependsOnItself)
    else if projectA.None? || projectB.None? then Some(NotFound)
    else if projectA != projectB then Some(OtherProject)
    else if (a, b) in edges then Some(Duplicate)
    else if Reaches(edges, b, a) then Some(WouldCycle)
    else None
  }

  class BoardRepository {
    var epics: map<nat, nat>
    var features: map<nat, Feature>
    var tasks: map<nat, Task>
    const featureDependencies: DependencyTable
    const taskDependencies: DependencyTable

    constructor ()
      ensures View() == Board(map[], map[], map[], {}, {})
      ensures fresh(featureDependencies) && fresh(taskDependencies) && featureDependencies != taskDependencies
    {
      epics, features, tasks := map[], map[], map[];
      featureDependencies := new DependencyTable();
      taskDependencies := new DependencyTable();
    }

    function View(): Board
      reads this, featureDependencies, taskDependencies
    {
      Board(epics, features, tasks, featureDependencies.edges, taskDependencies.edges)
    }

    method GetFeature(f: nat) returns (feature: Option<Feature>)
      ensures feature == if f in features then Some(features[f]) else None
    {
      feature := if f in features then Some(features[f]) else None;
    }

    method GetTasksForFeature(f: nat) returns (ids: seq<nat>)
      ensures multiset(ids) == multiset(TasksOf(tasks, f))
    {
      ids := Fetch(TasksOf(tasks, f));
    }

    method GetTask(t: nat) returns (task: Option<Task>)
      ensures task == if t in tasks then Some(tasks[t]) else None
    {
      task := if t in tasks then Some(tasks[t]) else None;
    }
  }

  class BoardService {
    const repo: BoardRepository

    constructor (repo: BoardRepository)
      ensures this.repo == repo
    {
      this.repo := repo;
    }

    /** `add_dependency`: the edge is added unless one of the guards refuses it. */
    method AddDependency(feature: nat, dependsOn: nat) returns (error: Option<DependencyError>)
      requires ForeignKeys(repo.View())
      modifies repo.featureDependencies
      ensures var b := old(repo.View());
              && error == Refusal(b.featureEdges, feature, dependsOn, FeatureProject(b, feature),
                   FeatureProject(b, dependsOn))
              && repo.featureDependencies.edges ==
                   if error.None? then b.featureEdges + {(feature, dependsOn)} else b.featureEdges
    {
      if feature == dependsOn {
        return Some(DependsOnItself);
      }
      var a := repo.GetFeature(feature);
      var d := repo.GetFeature(dependsOn);
      if a.None? || d.None? {
        return Some(NotFound);
      }
      if repo.epics[a.value.epic] != repo.epics[d.value.epic] {
        return Some(OtherProject);
      }
      var duplicate := repo.featureDependencies.Exists(feature, dependsOn);
      if duplicate {
        return Some(Duplicate);
      }
      var cycle := HasCycle(repo.featureDependencies, feature, dependsOn);
      if cycle {
        return Some(WouldCycle);
      }
      repo.featureDependencies.Add(feature, dependsOn);
      return None;
    }

    /** `add_task_dependency`. */
    method AddTaskDependency(task: nat, dependsOn: nat) returns (error: Option<DependencyError>)
      modifies repo.taskDependencies
      ensures var b := old(repo.View());
              && error == Refusal(b.taskEdges, task, dependsOn, TaskProject(b, task), TaskProject(b, dependsOn))
              && repo.taskDependencies.edges == if error.None? then b.taskEdges + {(task, dependsOn)} else b.taskEdges
    {
      if task == dependsOn {
        return Some(DependsOnItself);
      }
      var projectA := TaskProject(repo.View(), task);
      var projectB := TaskProject(repo.View(), dependsOn);
      if projectA.None? || projectB.None? {
        return Some(NotFound);
      }
      if projectA != projectB {
        return Some(OtherProject);
      }
      var duplicate := repo.taskDependencies.Exists(task, dependsOn);
      if duplicate {
        return Some(Duplicate);
      }
      var cycle := HasCycle(repo.taskDependencies, task, dependsOn);
      if cycle {
        return Some(WouldCycle);
      }
      repo.taskDependencies.Add(task, dependsOn);
      return None;
    }

    method RemoveDependency(feature: nat, dependsOn: nat) returns (removed: bool)
      modifies repo.featureDependencies
      ensures removed <==> (feature, dependsOn) in old(repo.featureDependencies.edges)
      ensures repo.featureDependencies.edges == old(repo.featureDependencies.edges) - {(feature, dependsOn)}
    {
      removed := repo.featureDependencies.Remove(feature, dependsOn);
    }

    method RemoveTaskDependency(task: nat, dependsOn: nat) returns (removed: bool)
      modifies repo.taskDependencies
      ensures removed <==> (task, dependsOn) in old(repo.taskDependencies.edges)
      ensures repo.taskDependencies.edges == old(repo.taskDependencies.edges) - {(task, dependsOn)}
    {
      removed := repo.taskDependencies.Remove(task, dependsOn);
    }
  }

  // ---- Runs -----------------------------------------------------------------------

  /** One operation on the board. `Rewrite` stands for every operation that adds no edge:
      creating, moving and updating rows, and deleting rows together with their edges. */
  datatype Edit =
    | AddFeatureEdge(feature: nat, dependsOn: nat)
    | RemoveFeatureEdge(feature: nat, dependsOn: nat)
    | AddTaskEdge(task: nat, dependsOn: nat)
    | RemoveTaskEdge(task: nat, dependsOn: nat)
    | Rewrite(board: Board)

  ghost predicate Possible(b: Board, e: Edit) {
    e.Rewrite? ==> e.board.featureEdges <= b.featureEdges && e.board.taskEdges <= b.taskEdges
  }

  /** The board after an edit, as the methods of `BoardService` leave it. */
  ghost function Edited(b: Board, e: Edit): Board {
    match e
    case AddFeatureEdge(f, d) =>
      if Refusal(b.featureEdges, f, d, FeatureProject(b, f), FeatureProject(b, d)).Some? then b
      else b.(featureEdges := b.featureEdges + {(f, d)})
    case RemoveFeatureEdge(f, d) => b.(featureEdges := b.featureEdges - {(f, d)})
    case AddTaskEdge(t, d) =>
      if Refusal(b.taskEdges, t, d, TaskProject(b, t), TaskProject(b, d)).Some? then b
      else b.(taskEdges := b.taskEdges + {(t, d)})
    case RemoveTaskEdge(t, d) => b.(taskEdges := b.taskEdges - {(t, d)})
    case Rewrite(board) => board
  }

  ghost predicate IsRun(b: Board, edits: seq<Edit>)
    decreases |edits|
  {
    edits == [] || (Possible(b, edits[0]) && IsRun(Edited(b, edits[0]), edits[1..]))
  }

  ghost function After(b: Board, edits: seq<Edit>): Board
    decreases |edits|
  {
    if edits == [] then b else After(Edited(b, edits[0]), edits[1..])
  }

  lemma EditKeepsAcyclic(b: Board, e: Edit)
    requires Acyclic(b.featureEdges) && Acyclic(b.taskEdges) && Possible(b, e)
    ensures Acyclic(Edited(b, e).featureEdges) && Acyclic(Edited(b, e).taskEdges)
  {
    match e
    case AddFeatureEdge(f, d) => AddingExactly(b.featureEdges, f, d);
    case RemoveFeatureEdge(f, d) => FewerEdgesStayAcyclic(b.featureEdges, b.featureEdges - {(f, d)});
    case AddTaskEdge(t, d) => AddingExactly(b.taskEdges, t, d);
    case RemoveTaskEdge(t, d) => FewerEdgesStayAcyclic(b.taskEdges, b.taskEdges - {(t, d)});
    case Rewrite(board) =>
      FewerEdgesStayAcyclic(b.featureEdges, board.featureEdges);
      FewerEdgesStayAcyclic(b.taskEdges, board.taskEdges);
  }

  /** Both graphs stay acyclic over every sequence of edits, each of them a whole call. */
  lemma {:induction false} GraphsStayAcyclic(b: Board, edits: seq<Edit>)
    requires Acyclic(b.featureEdges) && Acyclic(b.taskEdges) && IsRun(b, edits)
    ensures Acyclic(After(b, edits).featureEdges) && Acyclic(After(b, edits).taskEdges)
    decreases |edits|
  {
    if edits != [] {
      EditKeepsAcyclic(b, edits[0]);
      GraphsStayAcyclic(Edited(b, edits[0]), edits[1..]);
    }
  }

  /** The search refuses no edge it need not: an edge between two existing ends of one
      project that is new is refused exactly when it would close a cycle. */
  lemma RefusedExactly(edges: Edges, a: nat, b: nat, project: nat)
    requires Acyclic(edges) && (a, b) !in edges
    ensures Refusal(edges, a, b, Some(project), Some(project)).Some? <==> !Acyclic(edges + {(a, b)})
  {
    AddingExactly(edges, a, b);
    ReachesSelf(edges, a);
  }

  // ---- Which edges are refused, and why -------------------------------------------

  predicate SameProject(b: Board, f: Feature, d: Feature) {
    f.epic in b.epics && d.epic in b.epics && b.epics[f.epic] == b.epics[d.epic]
  }

  /** The first reason that holds, for an edge between two ends; `known` says that both exist
      and `together` that they belong to one project. */
  ghost predicate RefusedFor(edges: Edges, a: nat, b: nat, known: bool, together: bool,
                             r: Option<DependencyError>)
  {
    && (r == Some(DependsOnItself) <==> a == b)
    && (r == Some(NotFound) <==> a != b && !known)
    && (r == Some(OtherProject) <==> a != b && known && !together)
    && (r == Some(Duplicate) <==> a != b && known && together && (a, b) in edges)
    && (r == Some(WouldCycle) <==> a != b && known && together && (a, b) !in edges && !Acyclic(edges + {(a, b)}))
    && (r == None <==> a != b && known && together && (a, b) !in edges && Acyclic(edges + {(a, b)}))
  }

  /** An edge between features: both must exist and belong to one project, it must be new,
      and it must close no cycle. */
  lemma FeatureRefusalExactly(b: Board, f: nat, d: nat)
    requires ForeignKeys(b) && Acyclic(b.featureEdges)
    ensures RefusedFor(b.featureEdges, f, d, f in b.features && d in b.features,
              f in b.features && d in b.features && SameProject(b, b.features[f], b.features[d]),
              Refusal(b.featureEdges, f, d, FeatureProject(b, f), FeatureProject(b, d)))
  {
    AddingExactly(b.featureEdges, f, d);
    if f == d {
      ReachesSelf(b.featureEdges, f);
    }
  }

  /** The same for tasks, through their features. */
  lemma TaskRefusalExactly(b: Board, t: nat, d: nat)
    requires ForeignKeys(b) && Acyclic(b.taskEdges)
    ensures RefusedFor(b.taskEdges, t, d, t in b.tasks && d in b.tasks,
              t in b.tasks && d in b.tasks
                && SameProject(b, b.features[b.tasks[t].feature], b.features[b.tasks[d].feature]),
              Refusal(b.taskEdges, t, d, TaskProject(b, t), TaskProject(b, d)))
  {
    AddingExactly(b.taskEdges, t, d);
    if t == d {
      ReachesSelf(b.taskEdges, t);
    }
  }

  /** The edge, if it may be added: between two ends of one project, and closing no cycle. */
  ghost function Added(edges: Edges, a: nat, b: nat, together: bool): Edges {
    if together && Acyclic(edges + {(a, b)}) then edges + {(a, b)} else edges
  }

  /** An addition adds its edge unless that would close a cycle or its ends do not exist in
      one project. */
  lemma AddsExactly(edges: Edges, a: nat, b: nat, known: bool, together: bool, r: Option<DependencyError>)
    requires Acyclic(edges) && RefusedFor(edges, a, b, known, together, r)
    ensures Added(edges, a, b, known && together) == if r == None then edges + {(a, b)} else edges
  {
    AddingExactly(edges, a, b);
    if a == b {
      ReachesSelf(edges, a);
    }
    AlreadyThere(edges, (a, b));
  }

  /** What each edit does to the edges. */
  lemma EditedExactly(b: Board, f: nat, d: nat)
    requires ForeignKeys(b) && Acyclic(b.featureEdges) && Acyclic(b.taskEdges)
    ensures Edited(b, AddFeatureEdge(f, d)) == b.(featureEdges := Added(b.featureEdges, f, d,
              f in b.features && d in b.features && SameProject(b, b.features[f], b.features[d])))
    ensures Edited(b, AddTaskEdge(f, d)) == b.(taskEdges := Added(b.taskEdges, f, d,
              f in b.tasks && d in b.tasks
                && SameProject(b, b.features[b.tasks[f].feature], b.features[b.tasks[d].feature])))
    ensures Edited(b, RemoveFeatureEdge(f, d)) == b.(featureEdges := b.featureEdges - {(f, d)})
    ensures Edited(b, RemoveTaskEdge(f, d)) == b.(taskEdges := b.taskEdges - {(f, d)})
  {
    FeatureRefusalExactly(b, f, d);
    TaskRefusalExactly(b, f, d);
    AddsExactly(b.featureEdges, f, d, f in b.features && d in b.features,
      f in b.features && d in b.features && SameProject(b, b.features[f], b.features[d]),
      Refusal(b.featureEdges, f, d, FeatureProject(b, f), FeatureProject(b, d)));
    AddsExactly(b.taskEdges, f, d, f in b.tasks && d in b.tasks,
      f in b.tasks && d in b.tasks && SameProject(b, b.features[b.tasks[f].feature], b.features[b.tasks[d].feature]),
      Refusal(b.taskEdges, f, d, TaskProject(b, f), TaskProject(b, d)));
  }

  lemma AlreadyThere(edges: Edges, e: (nat, nat))
    ensures e in edges ==> edges + {e} == edges
  {
  }

  // ---- Two additions that overlap -------------------------------------------------

  /** An addition searches first and inserts later. When two of them search the same edges,
      both pass, and both insert, the result has a cycle exactly when each edge leads to the
      start of the other. */
  lemma OverlapExactly(edges: Edges, a: nat, b: nat, c: nat, d: nat, p: nat, q: nat)
    requires Acyclic(edges)
    requires Refusal(edges, a, b, Some(p), Some(p)) == None && Refusal(edges, c, d, Some(q), Some(q)) == None
    ensures !Acyclic(edges + {(a, b)} + {(c, d)}) <==> Reaches(edges, b, c) && Reaches(edges, d, a)
  {
    var edges' := edges + {(a, b)};
    AddingExactly(edges, a, b);
    AddingExactly(edges', c, d);
    if Reaches(edges', d, c) {
      var n: nat :| ReachesIn(edges', d, c, n);
      WalkSplits(edges, a, b, d, c, n);
    }
    if Reaches(edges, b, c) && Reaches(edges, d, a) {
      ReachesGrows(edges, edges', b, c);
      ReachesGrows(edges, edges', d, a);
      ReachesEdge(edges', a, b);
      ReachesJoin(edges', d, a, b);
      ReachesJoin(edges', d, b, c);
    }
  }

  /** So two opposite edges that both pass the search on unconnected nodes close a cycle. */
  lemma OverlapClosesCycle(a: nat, b: nat, p: nat)
    requires a != b
    ensures Refusal({}, a, b, Some(p), Some(p)) == None && Refusal({}, b, a, Some(p), Some(p)) == None
    ensures !Acyclic({} + {(a, b)} + {(b, a)})
  {
    if Reaches({}, b, a) {
      var c := FirstStep({}, b, a);
    }
    if Reaches({}, a, b) {
      var c := FirstStep({}, a, b);
    }
    ReachesSelf({}, a);
    ReachesSelf({}, b);
    OverlapExactly({}, a, b, b, a, p, p);
  }
}
