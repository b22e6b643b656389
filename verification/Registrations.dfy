/** Registrations of one worktree and timeout sweeps that run at the same time (`register`,
    `check_heartbeat_timeouts`), one repository call a step. The worktree starts online with
    one active session, 0. */
module Registrations {

  /** A registration: before its first call; after the row is set online; after the active
      session is read, with what was found; after that session is ended; after its own is
      created. Reading raises an exception when two sessions are active. */
  datatype Registration = Waiting | Upserted | HasRead(found: set<nat>) | Cleared | Registered | Raised

  /** A sweep: before its query; after the query listed session 0; after that session is
      marked as timed out; after the row is set offline, or the query listed nothing. */
  datatype Sweep = Idle | Listed | Marked | Swept

  /** The row, its active sessions, and the calls under way; `stale` says that the last
      heartbeat of session 0 is too old. */
  datatype World = World(online: bool, active: set<nat>, next: nat, stale: bool,
                         registrations: seq<Registration>, sweeps: seq<Sweep>)

  datatype Step = Register(i: nat) | Sweep(j: nat)

  predicate Enabled(w: World, step: Step) {
    match step
    case Register(i) => i < |w.registrations| && !w.registrations[i].Registered? && !w.registrations[i].Raised?
    case Sweep(j) => j < |w.sweeps| && !w.sweeps[j].Swept?
  }

  /** The next repository call of one registration. */
  function RegistrationStep(w: World, i: nat): World
    requires i < |w.registrations|
  {
    var w' := w.(registrations := w.registrations[i := match w.registrations[i]
                                                       case Waiting => Upserted
                                                       case Upserted =>
                                                         if |w.active| > 1 then Raised else HasRead(w.active)
                                                       case HasRead(_) => Cleared
                                                       case Cleared => Registered
                                                       case done => done]);
    match w.registrations[i]
    case Waiting => w'.(online := true)
    case HasRead(found) => w'.(active := w.active - found)
    case Cleared => w'.(active := w.active + {w.next}, next := w.next + 1)
    case _ => w'
  }

  /** The next repository call of one sweep. */
  function SweepStep(w: World, j: nat): World
    requires j < |w.sweeps|
  {
    var w' := w.(sweeps := w.sweeps[j := match w.sweeps[j]
                                         case Idle => if w.stale && 0 in w.active then Listed else Swept
                                         case Listed => Marked
                                         case _ => Swept]);
    match w.sweeps[j]
    case Listed => w'.(active := w.active - {0})
    case Marked => w'.(online := false)
    case _ => w'
  }

  function After(w: World, step: Step): World
    requires Enabled(w, step)
  {
    match step
    case Register(i) => RegistrationStep(w, i)
    case Sweep(j) => SweepStep(w, j)
  }

  predicate IsRun(w: World, steps: seq<Step>)
    decreases |steps|
  {
    steps == [] || (Enabled(w, steps[0]) && IsRun(After(w, steps[0]), steps[1..]))
  }

  function Outcome(w: World, steps: seq<Step>): World
    requires IsRun(w, steps)
    decreases |steps|
  {
    if steps == [] then w else Outcome(After(w, steps[0]), steps[1..])
  }

  /** `n` registrations and `m` sweeps about to begin. */
  function Start(n: nat, m: nat, stale: bool): World {
    World(true, {0}, 1, stale, seq(n, _ => Waiting), seq(m, _ => Idle))
  }

  // ---- At most one active session -------------------------------------------------

  /** What a single registration has done so far, whatever the sweeps do. */
  ghost predicate OneAtATime(w: World) {
    && |w.registrations| <= 1 && w.next >= 1
    && (w.registrations == [] ==> w.active <= {0})
    && (|w.registrations| == 1 ==>
          match w.registrations[0]
          case Waiting => w.active <= {0}
          case Upserted => w.active <= {0}
          case HasRead(found) => w.active <= found <= {0}
          case Cleared => w.active == {}
          case Registered => w.active <= {w.next - 1}
          case Raised => false)
  }

  lemma SmallSets(s: set<nat>, x: nat)
    requires s <= {x}
    ensures |s| <= 1
  {
    assert s == {} || s == {x};
  }

  lemma RegistrationKeepsOne(w: World)
    requires OneAtATime(w) && Enabled(w, Register(0))
    ensures OneAtATime(RegistrationStep(w, 0))
  {
    if w.active <= {0} {
      SmallSets(w.active, 0);
    }
    var w' := RegistrationStep(w, 0);
    assert |w'.registrations| == 1;
    match w.registrations[0]
    case Waiting =>
    case Upserted =>
      assert w'.registrations[0] == HasRead(w.active);
    case HasRead(found) =>
      assert w'.active == {};
    case Cleared =>
      assert w'.active == {w.next};
  }

  lemma SweepKeepsOne(w: World, j: nat)
    requires OneAtATime(w) && j < |w.sweeps|
    ensures OneAtATime(SweepStep(w, j))
  {
    assert SweepStep(w, j).active <= w.active;
  }

  lemma {:induction false} RunKeepsOne(w: World, steps: seq<Step>)
    requires OneAtATime(w) && IsRun(w, steps)
    ensures OneAtATime(Outcome(w, steps))
    decreases |steps|
  {
    if steps != [] {
      match steps[0] {
        case Register(_) => RegistrationKeepsOne(w);
        case Sweep(j) => SweepKeepsOne(w, j);
      }
      RunKeepsOne(After(w, steps[0]), steps[1..]);
    }
  }

  lemma {:induction false} RunsOn(w: World, a: seq<Step>, b: seq<Step>)
    requires IsRun(w, a) && IsRun(Outcome(w, a), b)
    ensures IsRun(w, a + b) && Outcome(w, a + b) == Outcome(Outcome(w, a), b)
    decreases |a|
  {
    if a == [] {
      assert a + b == b;
    } else {
      assert (a + b)[0] == a[0] && (a + b)[1..] == a[1..] + b;
      RunsOn(After(w, a[0]), a[1..], b);
    }
  }

  lemma OneStep(w: World, step: Step)
    requires Enabled(w, step)
    ensures IsRun(w, [step]) && Outcome(w, [step]) == After(w, step)
  {
    assert [step][1..] == [];
    assert IsRun(After(w, step), []);
  }

  /** The steps one after the other, with the world after each. */
  lemma Extended(w: World, a: seq<Step>, step: Step) returns (w': World)
    requires IsRun(w, a) && Enabled(Outcome(w, a), step)
    ensures IsRun(w, a + [step]) && Outcome(w, a + [step]) == w' == After(Outcome(w, a), step)
  {
    OneStep(Outcome(w, a), step);
    RunsOn(w, a, [step]);
    w' := After(Outcome(w, a), step);
  }

  lemma BothRead(w: World) returns (steps: seq<Step>, w': World)
    requires |w.registrations| >= 2 && w.active == {0}
    requires w.registrations[0] == w.registrations[1] == Waiting
    ensures IsRun(w, steps) && Outcome(w, steps) == w' && w'.active == {0} && w'.next == w.next && w'.sweeps == w.sweeps
    ensures w'.registrations == w.registrations[0 := HasRead({0})][1 := HasRead({0})] && w'.online
  {
    steps := [];
    w' := Extended(w, [], Register(0));
    w' := Extended(w, [] + [Register(0)], Register(0));
    w' := Extended(w, [] + [Register(0)] + [Register(0)], Register(1));
    steps := [] + [Register(0)] + [Register(0)] + [Register(1)];
    w' := Extended(w, steps, Register(1));
    steps := steps + [Register(1)];
  }

  lemma BothCreate(w: World) returns (steps: seq<Step>, w': World)
    requires |w.registrations| >= 2 && w.active == {0} && w.next >= 1
    requires w.registrations[0] == w.registrations[1] == HasRead({0})
    ensures IsRun(w, steps) && Outcome(w, steps) == w' && w'.active == {w.next, w.next + 1} && w'.sweeps == w.sweeps
    ensures w'.registrations == w.registrations[0 := Registered][1 := Registered]
  {
    w' := Extended(w, [], Register(0));
    w' := Extended(w, [] + [Register(0)], Register(1));
    assert w'.active == {};
    steps := [] + [Register(0)] + [Register(1)];
    w' := Extended(w, steps, Register(0));
    steps := steps + [Register(0)];
    w' := Extended(w, steps, Register(1));
    steps := steps + [Register(1)];
  }

  /** In every reachable world at most one session is active. */
  ghost predicate NeverTwo(n: nat, m: nat, stale: bool) {
    forall steps :: IsRun(Start(n, m, stale), steps) ==> |Outcome(Start(n, m, stale), steps).active| <= 1
  }

  lemma OverlapLeavesTwo(n: nat, m: nat, stale: bool) returns (steps: seq<Step>)
    requires n >= 2
    ensures IsRun(Start(n, m, stale), steps)
    ensures var w := Outcome(Start(n, m, stale), steps);
            w.active == {1, 2} && w.sweeps == Start(n, m, stale).sweeps
            && w.registrations == Start(n, m, stale).registrations[0 := Registered][1 := Registered]
  {
    var first, w := BothRead(Start(n, m, stale));
    var second, w' := BothCreate(w);
    RunsOn(Start(n, m, stale), first, second);
    steps := first + second;
  }

  /** However many sweeps run beside them, registrations never leave two active sessions if
      and only if there is at most one of them. */
  lemma OneActiveExactly(n: nat, m: nat, stale: bool)
    ensures NeverTwo(n, m, stale) <==> n <= 1
  {
    if n <= 1 {
      forall steps | IsRun(Start(n, m, stale), steps)
        ensures |Outcome(Start(n, m, stale), steps).active| <= 1
      {
        RunKeepsOne(Start(n, m, stale), steps);
        var w := Outcome(Start(n, m, stale), steps);
        SmallSets(w.active, if w.registrations != [] && w.registrations[0].Registered? then w.next - 1 else 0);
      }
    } else {
      var steps := OverlapLeavesTwo(n, m, stale);
      assert |{1, 2}| == 2;
    }
  }

  /** Sessions 1 and 2 are active, and every registration but the two that left them has not
      read yet or has raised. */
  ghost predicate LockedOut(w: World) {
    && w.active == {1, 2}
    && forall i :: 2 <= i < |w.registrations| ==>
         w.registrations[i].Waiting? || w.registrations[i].Upserted? || w.registrations[i].Raised?
  }

  ghost predicate BothDone(w: World) {
    |w.registrations| >= 2 && w.registrations[0].Registered? && w.registrations[1].Registered?
  }

  lemma ThirdGetsNowhere(w: World, i: nat)
    requires LockedOut(w) && BothDone(w) && Enabled(w, Register(i))
    ensures var w' := RegistrationStep(w, i);
            w'.active == w.active && i >= 2 && w'.registrations == w.registrations[i := w'.registrations[i]]
            && (w'.registrations[i].Upserted? || w'.registrations[i].Raised?)
  {
    assert |{1, 2}| == 2;
  }

  lemma SweepFindsNothing(w: World, j: nat)
    requires 0 !in w.active && j < |w.sweeps|
    ensures SweepStep(w, j).active == w.active && SweepStep(w, j).registrations == w.registrations
  {
    assert w.active - {0} == w.active;
  }

  lemma StepKeepsLockedOut(w: World, step: Step)
    requires LockedOut(w) && BothDone(w) && Enabled(w, step)
    ensures LockedOut(After(w, step)) && BothDone(After(w, step))
  {
    match step
    case Register(i) => ThirdGetsNowhere(w, i);
    case Sweep(j) => SweepFindsNothing(w, j);
  }

  /** Two registrations that overlapped lock the worktree out: after the run that leaves two
      sessions active, those two stay, as sweeps time out session 0 only, and no other
      registration succeeds. */
  lemma {:induction false} TwoLockOut(w: World, steps: seq<Step>)
    requires LockedOut(w) && BothDone(w) && IsRun(w, steps)
    ensures LockedOut(Outcome(w, steps))
    decreases |steps|
  {
    if steps != [] {
      StepKeepsLockedOut(w, steps[0]);
      TwoLockOut(After(w, steps[0]), steps[1..]);
    }
  }

  /** So with two or more registrations there is a run after which nobody can register, as
      long as neither of the two sessions it leaves times out. */
  lemma OverlapLocksOut(n: nat, m: nat, stale: bool) returns (steps: seq<Step>)
    requires n >= 2
    ensures IsRun(Start(n, m, stale), steps)
    ensures forall more :: IsRun(Outcome(Start(n, m, stale), steps), more) ==>
              LockedOut(Outcome(Outcome(Start(n, m, stale), steps), more))
  {
    steps := OverlapLeavesTwo(n, m, stale);
    var w := Outcome(Start(n, m, stale), steps);
    forall more | IsRun(w, more)
      ensures LockedOut(Outcome(w, more))
    {
      TwoLockOut(w, more);
    }
  }

  /** A third registration does not wait but raises, as soon as it reads. */
  lemma ThirdRaises(w: World, i: nat)
    requires LockedOut(w) && 2 <= i < |w.registrations| && w.registrations[i].Upserted?
    ensures After(w, Register(i)).registrations[i] == Raised
  {
    assert |{1, 2}| == 2;
  }

  // ---- Online means active --------------------------------------------------------

  /** Nothing is under way. */
  predicate Settled(w: World) {
    && (forall i :: 0 <= i < |w.registrations| ==>
          w.registrations[i].Waiting? || w.registrations[i].Registered? || w.registrations[i].Raised?)
    && (forall j :: 0 <= j < |w.sweeps| ==> w.sweeps[j].Idle? || w.sweeps[j].Swept?)
  }

  /** The row is online with one active session or offline with none. */
  predicate Consistent(w: World) {
    |w.active| == if w.online then 1 else 0
  }

  /** Every reachable world in which nothing is under way is consistent. */
  ghost predicate StaysConsistent(n: nat, m: nat, stale: bool) {
    forall steps ::
      IsRun(Start(n, m, stale), steps) && Settled(Outcome(Start(n, m, stale), steps)) ==>
        Consistent(Outcome(Start(n, m, stale), steps))
  }

  /** Sweeps alone: the session is active only while the row is online, and a row that is
      online without it is about to be set offline. */
  ghost predicate OnlySweeps(w: World) {
    && w.registrations == [] && w.active <= {0}
    && (0 in w.active ==> w.online && forall j :: 0 <= j < |w.sweeps| ==> !w.sweeps[j].Marked?)
    && (0 !in w.active && w.online ==> exists j :: 0 <= j < |w.sweeps| && w.sweeps[j].Marked?)
  }

  lemma SweepKeeps(w: World, step: Step)
    requires OnlySweeps(w) && Enabled(w, step)
    ensures OnlySweeps(After(w, step))
  {
    var j, w' := step.j, After(w, step);
    if 0 !in w'.active && w'.online {
      if w.sweeps[j].Listed? {
        assert w'.sweeps[j].Marked?;
      } else {
        var k :| 0 <= k < |w.sweeps| && w.sweeps[k].Marked?;
        assert w'.sweeps[k].Marked?;
      }
    }
  }

  lemma {:induction false} SweepsKeep(w: World, steps: seq<Step>)
    requires OnlySweeps(w) && IsRun(w, steps)
    ensures OnlySweeps(Outcome(w, steps))
    decreases |steps|
  {
    if steps != [] {
      SweepKeeps(w, steps[0]);
      SweepsKeep(After(w, steps[0]), steps[1..]);
    }
  }

  /** One registration, and no sweep that finds anything. */
  ghost predicate OnlyOne(w: World) {
    && |w.registrations| == 1 && w.online
    && (w.stale ==> w.sweeps == []) && (forall j :: 0 <= j < |w.sweeps| ==> w.sweeps[j].Idle? || w.sweeps[j].Swept?)
    && match w.registrations[0]
       case Waiting => w.active == {0}
       case Upserted => w.active == {0}
       case HasRead(found) => w.active == found == {0}
       case Cleared => w.active == {}
       case Registered => exists s :: w.active == {s}
       case Raised => false
  }

  lemma AloneStep(w: World, step: Step)
    requires OnlyOne(w) && Enabled(w, step)
    ensures OnlyOne(After(w, step))
  {
    if step.Register? && w.registrations[0].Cleared? {
      assert After(w, step).active == {w.next};
    }
  }

  lemma {:induction false} AloneKeeps(w: World, steps: seq<Step>)
    requires OnlyOne(w) && IsRun(w, steps)
    ensures OnlyOne(Outcome(w, steps))
    decreases |steps|
  {
    if steps != [] {
      AloneStep(w, steps[0]);
      AloneKeeps(After(w, steps[0]), steps[1..]);
    }
  }

  /** A sweep lists the old session, the worktree registers again, and the sweep then takes
      the row offline under the new session. */
  lemma SweepStrands(n: nat, m: nat, stale: bool) returns (steps: seq<Step>)
    requires n >= 1 && m >= 1 && stale
    ensures IsRun(Start(n, m, stale), steps) && Settled(Outcome(Start(n, m, stale), steps))
    ensures !Outcome(Start(n, m, stale), steps).online && Outcome(Start(n, m, stale), steps).active == {1}
  {
    var w0 := Start(n, m, stale);
    var w := Extended(w0, [], Sweep(0));
    steps := [] + [Sweep(0)];
    w := Extended(w0, steps, Register(0));
    steps := steps + [Register(0)];
    w := Extended(w0, steps, Register(0));
    steps := steps + [Register(0)];
    w := Extended(w0, steps, Register(0));
    steps := steps + [Register(0)];
    w := Extended(w0, steps, Register(0));
    steps := steps + [Register(0)];
    assert w.active == {1};
    w := Extended(w0, steps, Sweep(0));
    steps := steps + [Sweep(0)];
    w := Extended(w0, steps, Sweep(0));
    steps := steps + [Sweep(0)];
  }

  /** A sweep has nothing to do once the old session has ended, however many of them run. */
  lemma {:induction false} LateSweepsAreSilent(w: World, steps: seq<Step>)
    requires IsRun(w, steps) && 0 !in w.active && (forall step :: step in steps ==> step.Sweep?)
    requires forall j :: 0 <= j < |w.sweeps| ==> w.sweeps[j].Idle? || w.sweeps[j].Swept?
    ensures Outcome(w, steps).online == w.online && Outcome(w, steps).active == w.active
    decreases |steps|
  {
    if steps != [] {
      assert steps[0] in steps;
      LateSweepsAreSilent(After(w, steps[0]), steps[1..]);
    }
  }

  /** Every quiet moment finds the worktree online with one active session or offline with
      none, over all interleavings, if and only if there are only sweeps, or one registration
      and no sweep that finds its old session timed out. */
  lemma ConsistentExactly(n: nat, m: nat, stale: bool)
    ensures StaysConsistent(n, m, stale) <==> n == 0 || (n == 1 && (m == 0 || !stale))
  {
    if n == 0 {
      forall steps | IsRun(Start(n, m, stale), steps) && Settled(Outcome(Start(n, m, stale), steps))
        ensures Consistent(Outcome(Start(n, m, stale), steps))
      {
        SweepsKeep(Start(n, m, stale), steps);
        var w := Outcome(Start(n, m, stale), steps);
        assert w.active == {} || w.active == {0};
      }
    } else if n == 1 && (m == 0 || !stale) {
      forall steps | IsRun(Start(n, m, stale), steps) && Settled(Outcome(Start(n, m, stale), steps))
        ensures Consistent(Outcome(Start(n, m, stale), steps))
      {
        AloneKeeps(Start(n, m, stale), steps);
      }
    } else if m >= 1 && stale {
      var steps := SweepStrands(n, m, stale);
    } else {
      var steps := OverlapLeavesTwo(n, m, stale);
      assert |{1, 2}| == 2;
      assert Settled(Outcome(Start(n, m, stale), steps));
    }
  }
}
