/** Why the promptness condition of the lifecycle theorems is needed: what a launch that is
    not prompt can come to. */
module SupervisorRaces {
  import opened Wrappers
  import opened SupervisedComponent
  import opened SupervisedSteps
  import opened RuntimeSupervisor

  // ----- why launches must be prompt -----

  /** The callback in flight is the one the slot holds. */
  ghost predicate Owned(c: Component) {
    c.tasks != [] && Last(c.tasks).Running() ==> c.pending == Callback(|c.tasks| - 1)
  }

  /** Every outstanding report of an earlier callback leaves the last one owned; `started` is
      the flag of the supervisor when the reports arrive. */
  ghost predicate SurvivesReports(c: Component, started: bool) {
    && (c.lateWait.Some? && c.lateWait.value < |c.tasks| && !c.tasks[c.lateWait.value].Running() ==>
          Owned(ResumeLate(c)))
    && (forall k :: 0 <= k < |c.tasks| && !c.tasks[k].Running() && !c.tasks[k].calledBack ==>
          Owned(CallBack(c, k, started)))
  }

  /** A launch keeps its callback owned through all outstanding reports exactly when no late
      cleanup waits for a callback that is done, and the reports arrive before shutdown or no
      start that is done has still to report. */
  lemma PromptnessExact(c: Component, before: bool, kind: Kind, purpose: Purpose, started: bool)
    requires ComponentInv(c, before) && c.wait.None? && !InFlight(c)
    ensures SurvivesReports(Launch(c, kind, purpose), started) <==> Settled(c) && (started || StartsReported(c))
  {
    var d := Launch(c, kind, purpose);
    LastOf(c.tasks, Task(kind, None, false));
    if c.lateWait.Some? {
      LateReportLoses(c, d);
    } else if !started && !StartsReported(c) {
      StartReportLoses(c, d);
    } else {
      forall k | 0 <= k < |d.tasks| && !d.tasks[k].Running() && !d.tasks[k].calledBack
        ensures Owned(CallBack(d, k, started))
      {
        assert d.tasks[k] == c.tasks[k];
        assert Last(CallBack(d, k, started).tasks) == Last(d.tasks);
      }
    }
  }

  lemma LateReportLoses(c: Component, d: Component)
    requires SlotOk(c) && WaitOk(c, true) && !InFlight(c) && c.lateWait.Some?
    requires d.lateWait == c.lateWait && d.tasks != [] && Init(d.tasks) == c.tasks && Last(d.tasks).Running()
    ensures !Settled(c) && !SurvivesReports(d, true) && !SurvivesReports(d, false)
  {
    assert d.tasks[c.lateWait.value] == c.tasks[c.lateWait.value];
    assert !Owned(ResumeLate(d));
  }

  lemma StartReportLoses(c: Component, d: Component)
    requires !StartsReported(c) && d.tasks != [] && Init(d.tasks) == c.tasks && Last(d.tasks).Running()
    ensures !SurvivesReports(d, false)
  {
    var k :| 0 <= k < |c.tasks| && !c.tasks[k].Running() && c.tasks[k].kind == Start && !c.tasks[k].calledBack;
    assert d.tasks[k] == c.tasks[k];
    assert Last(CallBack(d, k, false).tasks) == Last(d.tasks);
    assert !Owned(CallBack(d, k, false));
  }

  // ----- every launch that is not prompt can come to a race -----

  lemma {:induction false} RunExtends(w: World, steps: seq<Step>, s: Step)
    requires IsRun(w, steps) && Enabled(After(w, steps), s)
    ensures IsRun(w, steps + [s]) && After(w, steps + [s]) == Next(After(w, steps), s)
    decreases |steps|
  {
    if steps == [] {
      assert [] + [s] == [s];
    } else {
      RunExtends(Next(w, steps[0]), steps[1..], s);
      assert (steps + [s])[1..] == steps[1..] + [s];
    }
  }

  lemma {:induction false} RunJoin(w: World, a: seq<Step>, b: seq<Step>)
    requires IsRun(w, a) && IsRun(After(w, a), b)
    ensures IsRun(w, a + b) && After(w, a + b) == After(After(w, a), b)
    decreases |a|
  {
    if a == [] {
      assert a + b == b;
    } else {
      RunJoin(Next(w, a[0]), a[1..], b);
      assert (a + b)[1..] == a[1..] + b;
    }
  }

  lemma RunOne(w: World, s: Step)
    requires Enabled(w, s)
    ensures IsRun(w, [s]) && After(w, [s]) == Next(w, s)
  {
    assert [s][1..] == [];
  }

  /** Two callbacks of the component are in flight. */
  ghost predicate TwoInFlight(c: Component) {
    exists i, j :: 0 <= i < j < |c.tasks| && c.tasks[i].Running() && c.tasks[j].Running()
  }

  /** A callback is in flight that the slot does not hold, and nothing waits for it. */
  ghost predicate Orphan(c: Component) {
    c.wait.None? && c.pending.Empty? && c.tasks != [] && Last(c.tasks).Running()
  }

  /** The stop has come to its components, and nothing is awaited. */
  ghost predicate StopsAll(w: World) {
    w.phase.Stopping? && !w.phase.busy && forall m :: m in w.phase.todo ==> m in w.comps && w.comps[m].wait.None?
  }

  /** A stop can go past its first component without anything of it being awaited. */
  lemma StopPast(w: World) returns (steps: seq<Step>)
    requires StopsAll(w) && w.phase.todo != []
    ensures IsRun(w, steps)
    ensures var u, m := After(w, steps), w.phase.todo[0];
            && u.phase == Stopping(w.phase.todo[1..], false) && StopsAll(u) && u.comps.Keys == w.comps.Keys
            && forall k :: k in w.comps && k != m ==> u.comps[k] == w.comps[k]
  {
    var m := w.phase.todo[0];
    assert m in w.phase.todo;
    RunOne(w, StopNext);
    steps := [StopNext];
    var u := Next(w, StopNext);
    if u.comps[m].wait.Some? {
      RunExtends(w, steps, TimedOut(m, SOON));
      u := Next(u, TimedOut(m, SOON));
      steps := steps + [TimedOut(m, SOON)];
    }
    assert u.phase == Stopping(w.phase.todo, true) && u.comps == w.comps[m := u.comps[m]] && u.comps[m].wait.None?;
    RunExtends(w, steps, StopAdvance);
    steps := steps + [StopAdvance];
    assert forall k :: k in w.phase.todo[1..] ==> k in w.phase.todo;
  }

  /** A stop can come to `n` with `n` as it is. */
  lemma {:induction false} StopComesTo(w: World, n: string) returns (steps: seq<Step>)
    requires StopsAll(w) && n in w.phase.todo
    ensures IsRun(w, steps)
    ensures var u := After(w, steps);
            StopsAll(u) && u.phase.todo != [] && u.phase.todo[0] == n && n in u.comps && u.comps[n] == w.comps[n]
    decreases |w.phase.todo|
  {
    if w.phase.todo[0] == n {
      steps := [];
    } else {
      var first := StopPast(w);
      var u := After(w, first);
      assert w.phase.todo == [w.phase.todo[0]] + w.phase.todo[1..];
      var rest := StopComesTo(u, n);
      RunJoin(w, first, rest);
      steps := first + rest;
    }
  }

  /** When a stop comes to an orphan, it launches a second callback. */
  lemma OrphanRaces(w: World, n: string) returns (steps: seq<Step>)
    requires StopsAll(w) && n in w.phase.todo && Orphan(w.comps[n])
    ensures IsRun(w, steps) && n in After(w, steps).comps && TwoInFlight(After(w, steps).comps[n])
  {
    steps := StopComesTo(w, n);
    var u := After(w, steps);
    RunExtends(w, steps, StopNext);
    steps := steps + [StopNext];
    var ts, us := u.comps[n].tasks, Next(u, StopNext).comps[n].tasks;
    assert us[|ts| - 1].Running() && us[|ts|].Running();
  }

  /** What is left of a component whose wait, if any, is cancelled. */
  function Unawaited(c: Component): Component {
    if c.wait.Some? then CancelWait(c) else c
  }

  /** While a stop waits for the monitor, all waits can be cancelled. */
  lemma {:induction false} CancelAll(w: World, names: seq<string>) returns (steps: seq<Step>)
    requires w.phase.Cancelling? && forall m :: m in names ==> m in w.comps
    ensures IsRun(w, steps)
    ensures var u := After(w, steps);
            && u.phase.Cancelling? && u.names == w.names && u.comps.Keys == w.comps.Keys
            && forall m :: m in w.comps ==> u.comps[m] == if m in names then Unawaited(w.comps[m]) else w.comps[m]
    decreases |names|
  {
    if names == [] {
      steps := [];
    } else {
      assert names == [names[0]] + names[1..];
      if w.comps[names[0]].wait.Some? {
        RunOne(w, WaitCancelled(names[0]));
        var rest := CancelAll(Next(w, WaitCancelled(names[0])), names[1..]);
        RunJoin(w, [WaitCancelled(names[0])], rest);
        steps := [WaitCancelled(names[0])] + rest;
      } else {
        steps := CancelAll(w, names[1..]);
      }
    }
  }

  ghost predicate NamesComps(w: World) {
    Distinct(w.names) && forall n :: n in w.names <==> n in w.comps
  }

  /** From any working phase a stop can come to its components, with all waits cancelled. */
  lemma StopBegins(w: World) returns (steps: seq<Step>)
    requires NamesComps(w) && (w.phase.Starting? || w.phase.Up? || w.phase.Halted?)
    ensures IsRun(w, steps)
    ensures var u := After(w, steps);
            && StopsAll(u) && u.phase.todo == Reverse(w.names)
            && forall m :: m in w.comps ==> m in u.comps && u.comps[m] == Unawaited(w.comps[m])
  {
    RunOne(w, StopCall);
    var rest := CancelAll(Next(w, StopCall), w.names);
    RunJoin(w, [StopCall], rest);
    steps := [StopCall] + rest;
    RunExtends(w, steps, StopBegin);
    steps := steps + [StopBegin];
    ReverseProperties(w.names);
  }

  /** A late cleanup that learns late that its stop is done empties the slot of the callback
      launched meanwhile. */
  lemma LateReportOrphans(c: Component)
    requires c.wait.Some? && c.lateWait.Some? && c.lateWait.value + 1 < |c.tasks|
    requires !c.tasks[c.lateWait.value].Running() && Last(c.tasks).Running()
    ensures Orphan(Unawaited(ResumeLate(c)))
  {
  }

  /** After the launch: the report of the late cleanup, the end of the wait, and a stop that
      comes to the component. */
  lemma OrphanFrom(w: World, n: string) returns (steps: seq<Step>)
    requires NamesComps(w) && n in w.comps && w.comps[n].wait.Some? && Orphan(Unawaited(w.comps[n]))
    requires w.phase.Starting? || w.phase.Up? || w.phase.Stopping?
    requires w.phase.Stopping? ==> forall m :: m in w.comps && m != n ==> w.comps[m].wait.None?
    ensures IsRun(w, steps) && n in After(w, steps).comps && TwoInFlight(After(w, steps).comps[n])
  {
    var first := [];
    var u := w;
    if w.phase.Stopping? {
      RunOne(w, WaitCancelled(n));
      first, u := [WaitCancelled(n)], Next(w, WaitCancelled(n));
    }
    var second;
    ReverseProperties(w.names);
    if u.phase.Down? {
      assert u.comps[n].needsCleanup;
      RunOne(u, StopCall);
      second := [StopCall];
    } else {
      second := StopBegins(u);
    }
    RunJoin(w, first, second);
    var v := After(w, first + second);
    assert v.comps[n] == Unawaited(w.comps[n]);
    var third := OrphanRaces(v, n);
    RunJoin(w, first + second, third);
    steps := first + second + third;
  }

  /** From `c` to `d` a callback was launched and is awaited. */
  ghost predicate JustLaunched(c: Component, d: Component) {
    && d.wait.Some? && d.lateWait == c.lateWait
    && d.tasks != [] && Init(d.tasks) == c.tasks && Last(d.tasks).Running()
  }

  lemma TryStartLaunches(c: Component, i: Input)
    requires |TryStart(c, i).tasks| > |c.tasks|
    ensures JustLaunched(c, TryStart(c, i))
  {
  }

  lemma ShutDownLaunches(c: Component)
    requires |ShutDown(c).tasks| > |c.tasks|
    ensures JustLaunched(c, ShutDown(c))
  {
  }

  lemma MaintainLaunches(c: Component, stableAfter: real, stopping: bool, i: Input)
    requires |Maintain(c, stableAfter, stopping, i).tasks| > |c.tasks|
    ensures !stopping && JustLaunched(c, Maintain(c, stableAfter, stopping, i))
  {
  }

  /** Who launches a callback of a component that nobody waits for. */
  lemma LaunchingStep(w: World, s: Step, n: string)
    requires Enabled(w, s) && n in w.comps && w.comps[n].wait.None? && !w.comps[n].pending.LateCleanup?
    requires n in Next(w, s).comps && |Next(w, s).comps[n].tasks| > |w.comps[n].tasks|
    ensures s.StartNext? || s.StopNext? || s.MaintainOne?
    ensures s.StartNext? || s.StopNext? ==> w.phase.todo[0] == n
    ensures s.MaintainOne? ==> s.name == n && w.phase.Up?
    ensures JustLaunched(w.comps[n], Next(w, s).comps[n])
  {
    match s
    case StartNext(i) => TryStartLaunches(w.comps[n], i);
    case StopNext => ShutDownLaunches(w.comps[n]);
    case MaintainOne(_, i) => MaintainLaunches(w.comps[n], w.stableAfter, w.phase.Cancelling?, i);
    case _ =>
  }

  lemma OthersWaitForNothing(w: World, n: string)
    requires PhaseOk(w) && Enabled(w, StopNext) && w.phase.todo[0] == n
    ensures forall m :: m in w.comps && m != n ==> w.comps[m].wait.None?
  {
    var todo := w.phase.todo;
    forall m | m in w.comps && m != n
      ensures w.comps[m].wait.None?
    {
      assert Waiting(todo, false, m) <==> m in todo;
    }
  }

  lemma UnsettledWaits(c: Component, started: bool)
    requires ComponentInv(c, started) && !Settled(c)
    ensures c.wait.None? && !c.pending.LateCleanup?
  {
  }

  lemma LaunchPhase(w: World, s: Step, n: string)
    requires Inv(w) && Enabled(w, s) && (s.StartNext? || s.StopNext? || s.MaintainOne?)
    requires s.StopNext? ==> w.phase.todo[0] == n
    requires s.MaintainOne? ==> w.phase.Up?
    ensures var u := Next(w, s);
            && NamesComps(u) && (u.phase.Starting? || u.phase.Up? || u.phase.Stopping?)
            && (u.phase.Stopping? ==> forall m :: m in u.comps && m != n ==> u.comps[m].wait.None?)
  {
    if s.StopNext? {
      OthersWaitForNothing(w, n);
    }
  }

  /** From every world of the invariant: a launch on a component whose late cleanup has still
      to learn that its stop is done can be followed by a run after which two callbacks of the
      component are in flight. */
  lemma UnsettledRaces(w: World, s: Step, n: string) returns (steps: seq<Step>)
    requires Inv(w) && Enabled(w, s) && n in w.comps && !Settled(w.comps[n])
    requires n in Next(w, s).comps && |Next(w, s).comps[n].tasks| > |w.comps[n].tasks|
    ensures IsRun(w, [s] + steps) && n in After(w, [s] + steps).comps && TwoInFlight(After(w, [s] + steps).comps[n])
  {
    UnsettledWaits(w.comps[n], w.started);
    LaunchingStep(w, s, n);
    LaunchPhase(w, s, n);
    steps := LateReportRaces(Next(w, s), n);
    RunOne(w, s);
    RunJoin(w, [s], steps);
  }

  lemma LateReportRaces(w: World, n: string) returns (steps: seq<Step>)
    requires NamesComps(w) && (w.phase.Starting? || w.phase.Up? || w.phase.Stopping?)
    requires w.phase.Stopping? ==> forall m :: m in w.comps && m != n ==> w.comps[m].wait.None?
    requires n in w.comps && w.comps[n].wait.Some? && w.comps[n].lateWait.Some?
    requires var c := w.comps[n];
             && c.lateWait.value + 1 < |c.tasks| && !c.tasks[c.lateWait.value].Running() && Last(c.tasks).Running()
    ensures IsRun(w, steps) && n in After(w, steps).comps && TwoInFlight(After(w, steps).comps[n])
  {
    RunOne(w, LateResumed(n));
    LateReportOrphans(w.comps[n]);
    var rest := OrphanFrom(Next(w, LateResumed(n)), n);
    RunJoin(w, [LateResumed(n)], rest);
    steps := [LateResumed(n)] + rest;
  }

  // ----- a report that is not prompt -----

  /** From every world: a start that reports after shutdown while a later callback is in flight
      overwrites its slot, and the late cleanup launches a second one. */
  lemma StaleReportRaces(w: World, n: string, id: nat) returns (steps: seq<Step>)
    requires Enabled(w, CalledBack(n, id)) && !w.started && w.comps[n].tasks[id].kind == Start
    requires Last(w.comps[n].tasks).Running()
    ensures IsRun(w, steps) && n in After(w, steps).comps && TwoInFlight(After(w, steps).comps[n])
  {
    RunOne(w, CalledBack(n, id));
    RunExtends(w, [CalledBack(n, id)], LateBegins(n));
    steps := [CalledBack(n, id), LateBegins(n)];
    var c := w.comps[n];
    var ts := RunLate(CallBack(c, id, false)).tasks;
    assert ts[|c.tasks| - 1].Running() && ts[|c.tasks|].Running();
  }

  // ----- a run from the start -----

  const SPEC := Spec(1.0, 30.0)
  const SOON := Input(1.0, false, _ => 1.0)
  const LATER := Input(9.0, false, _ => 1.0)
  const NAME := "a"

  ghost function Alone(started: bool, phase: Phase, c: Component): World {
    World(started, phase, 60.0, [NAME], map[NAME := c])
  }

  /** One step of a run that is being built. */
  lemma Do(steps: seq<Step>, s: Step, before: World, after: World) returns (more: seq<Step>)
    requires IsRun(InitialWorld(60.0), steps) && After(InitialWorld(60.0), steps) == before
    requires Enabled(before, s) && Next(before, s) == after
    ensures IsRun(InitialWorld(60.0), more) && After(InitialWorld(60.0), more) == after
  {
    RunExtends(InitialWorld(60.0), steps, s);
    more := steps + [s];
  }

  /** The start callback has timed out. */
  function CutShort(): Component {
    Component(SPEC, 1, 0, 2.0, None, Callback(0), true, None, None, [Task(Start, None, false)], [])
  }

  lemma ToLaunched() returns (steps: seq<Step>)
    ensures IsRun(InitialWorld(60.0), steps)
    ensures After(InitialWorld(60.0), steps) == Alone(true, Starting([NAME], true), Launch(Fresh(SPEC), Start, ToStart))
  {
    var specs := [(NAME, SPEC)];
    assert NamesOf(specs) == [NAME];
    assert Configured(specs) == map[NAME := Fresh(SPEC)];
    steps := Do([], Configure(specs), InitialWorld(60.0), Alone(false, Down, Fresh(SPEC)));
    steps := Do(steps, StartCall, Alone(false, Down, Fresh(SPEC)), Alone(true, Starting([NAME], false), Fresh(SPEC)));
    var launched := Launch(Fresh(SPEC), Start, ToStart);
    steps := Do(steps, StartNext(SOON), Alone(true, Starting([NAME], false), Fresh(SPEC)),
                Alone(true, Starting([NAME], true), launched));
  }

  lemma ToCutShort() returns (steps: seq<Step>)
    ensures IsRun(InitialWorld(60.0), steps)
    ensures After(InitialWorld(60.0), steps) == Alone(true, Starting([NAME], true), CutShort())
  {
    steps := ToLaunched();
    var launched := Launch(Fresh(SPEC), Start, ToStart);
    assert launched.tasks == [Task(Start, None, false)];
    assert TimeOut(launched, SOON) == CutShort();
    steps := Do(steps, TimedOut(NAME, SOON), Alone(true, Starting([NAME], true), launched),
                Alone(true, Starting([NAME], true), CutShort()));
  }

  lemma ToStopping() returns (steps: seq<Step>)
    ensures IsRun(InitialWorld(60.0), steps)
    ensures After(InitialWorld(60.0), steps) == Alone(true, Stopping([NAME], false), CutShort())
  {
    var c := CutShort();
    steps := ToCutShort();
    steps := Do(steps, StopCall, Alone(true, Starting([NAME], true), c), Alone(true, Cancelling, c));
    assert Reverse([NAME]) == [NAME];
    steps := Do(steps, StopBegin, Alone(true, Cancelling, c), Alone(true, Stopping([NAME], false), c));
  }

  lemma ToStopped() returns (steps: seq<Step>)
    ensures IsRun(InitialWorld(60.0), steps)
    ensures After(InitialWorld(60.0), steps) == Alone(false, Down, CutShort().(nextRestartAt := 0.0))
  {
    var c := CutShort();
    var d := c.(nextRestartAt := 0.0);
    steps := ToStopping();
    assert InFlight(c) && ShutDown(c) == d;
    steps := Do(steps, StopNext, Alone(true, Stopping([NAME], false), c), Alone(true, Stopping([NAME], true), d));
    assert [NAME][1..] == [];
    steps := Do(steps, StopAdvance, Alone(true, Stopping([NAME], true), d), Alone(true, Stopping([], false), d));
    steps := Do(steps, StopDone, Alone(true, Stopping([], false), d), Alone(false, Down, d));
  }

  /** The start has come back after shutdown; the stop that its late cleanup launched has
      just returned, and the cleanup does not know yet. */
  function Unreported(): Component {
    Component(SPEC, 1, 0, 0.0, None, Callback(1), true, None, Some(1),
              [Task(Start, Some(Returned), true), Task(Stop, Some(Returned), false)], [])
  }

  /** The start has come back, and its late cleanup is scheduled. */
  function ComeBack(): Component {
    Component(SPEC, 1, 0, 0.0, None, LateCleanup(false), true, None, None, [Task(Start, Some(Returned), true)], [])
  }

  lemma ToComeBack() returns (steps: seq<Step>)
    ensures IsRun(InitialWorld(60.0), steps)
    ensures After(InitialWorld(60.0), steps) == Alone(false, Down, ComeBack())
  {
    var c0 := CutShort().(nextRestartAt := 0.0);
    var c1 := Complete(c0, 0, Returned);
    assert CallBack(c1, 0, false) == ComeBack() by {
      assert CallBack(c1, 0, false).tasks == ComeBack().tasks;
    }
    steps := ToStopped();
    steps := Do(steps, Completed(NAME, 0, Returned), Alone(false, Down, c0), Alone(false, Down, c1));
    steps := Do(steps, CalledBack(NAME, 0), Alone(false, Down, c1), Alone(false, Down, ComeBack()));
  }

  lemma ToUnreported() returns (steps: seq<Step>)
    ensures IsRun(InitialWorld(60.0), steps)
    ensures After(InitialWorld(60.0), steps) == Alone(false, Down, Unreported())
  {
    var c2 := ComeBack();
    var c3 := RunLate(c2);
    steps := ToComeBack();
    steps := Do(steps, LateBegins(NAME), Alone(false, Down, c2), Alone(false, Down, c3));
    assert Complete(c3, 1, Returned) == Unreported() by {
      assert Complete(c3, 1, Returned).tasks == Unreported().tasks;
    }
    steps := Do(steps, Completed(NAME, 1, Returned), Alone(false, Down, c3), Alone(false, Down, Unreported()));
  }

  /** The late cleanup, resuming after start has launched a new stop, has cleared the slot
      that held it; that stop has timed out and is still in flight. */
  function Orphaned(): Component {
    TimeOut(ResumeLate(Launch(Unreported(), Stop, ToClean)), SOON)
  }

  lemma ToCleaning() returns (steps: seq<Step>)
    ensures IsRun(InitialWorld(60.0), steps)
    ensures After(InitialWorld(60.0), steps) == Alone(true, Starting([NAME], true), Launch(Unreported(), Stop, ToClean))
  {
    var c0 := Unreported();
    var c1 := Launch(c0, Stop, ToClean);
    steps := ToUnreported();
    steps := Do(steps, StartCall, Alone(false, Down, c0), Alone(true, Starting([NAME], false), c0));
    steps := Do(steps, StartNext(SOON), Alone(true, Starting([NAME], false), c0),
                Alone(true, Starting([NAME], true), c1));
  }

  lemma ToOrphaned() returns (steps: seq<Step>)
    ensures IsRun(InitialWorld(60.0), steps)
    ensures After(InitialWorld(60.0), steps) == Alone(true, Starting([NAME], true), Orphaned())
  {
    var c1 := Launch(Unreported(), Stop, ToClean);
    var c2 := ResumeLate(c1);
    steps := ToCleaning();
    steps := Do(steps, LateResumed(NAME), Alone(true, Starting([NAME], true), c1),
                Alone(true, Starting([NAME], true), c2));
    steps := Do(steps, TimedOut(NAME, SOON), Alone(true, Starting([NAME], true), c2),
                Alone(true, Starting([NAME], true), Orphaned()));
  }

  /** Without promptness two callbacks of one component can be in flight. */
  lemma RaceWithoutPromptness() returns (steps: seq<Step>)
    ensures IsRun(InitialWorld(60.0), steps)
    ensures NAME in After(InitialWorld(60.0), steps).comps
    ensures var ts := After(InitialWorld(60.0), steps).comps[NAME].tasks;
            |ts| == 4 && ts[2].Running() && ts[3].Running()
  {
    var c := Orphaned();
    var d := Maintain(c, 60.0, false, LATER);
    assert c.nextRestartAt == 2.0 && c.pending == Empty;
    steps := ToOrphaned();
    assert [NAME][1..] == [];
    steps := Do(steps, StartAdvance, Alone(true, Starting([NAME], true), c), Alone(true, Starting([], false), c));
    steps := Do(steps, StartDone, Alone(true, Starting([], false), c), Alone(true, Up, c));
    steps := Do(steps, MaintainOne(NAME, LATER), Alone(true, Up, c), Alone(true, Up, d));
  }

  // ----- a component that may be live and is forgotten -----

  /** The cleaning stop has returned and the start after it as well; the late cleanup still
      does not know that its stop is done. */
  function Restarted(): Component {
    Component(SPEC, 2, 0, 2.0, None, Empty, false, None, Some(1),
              [Task(Start, Some(Returned), true), Task(Stop, Some(Returned), false),
               Task(Stop, Some(Returned), false), Task(Start, Some(Returned), false)], [Observation(1.0, false)])
  }

  lemma ToStartedAgain() returns (steps: seq<Step>)
    ensures IsRun(InitialWorld(60.0), steps)
    ensures var c := Complete(Launch(Unreported(), Stop, ToClean), 2, Returned);
            After(InitialWorld(60.0), steps) == Alone(true, Starting([NAME], true), Resume(c, SOON))
  {
    var c1 := Launch(Unreported(), Stop, ToClean);
    var c2 := Complete(c1, 2, Returned);
    steps := ToCleaning();
    steps := Do(steps, Completed(NAME, 2, Returned), Alone(true, Starting([NAME], true), c1),
                Alone(true, Starting([NAME], true), c2));
    steps := Do(steps, Resumed(NAME, SOON), Alone(true, Starting([NAME], true), c2),
                Alone(true, Starting([NAME], true), Resume(c2, SOON)));
  }

  lemma ToRestarted() returns (steps: seq<Step>)
    ensures IsRun(InitialWorld(60.0), steps)
    ensures After(InitialWorld(60.0), steps) == Alone(true, Starting([NAME], true), Restarted())
  {
    var c3 := Resume(Complete(Launch(Unreported(), Stop, ToClean), 2, Returned), SOON);
    assert c3 == Launch(c3.(pending := Empty, wait := None, tasks := c3.tasks[..3]), Start, ToStart);
    var c4 := Complete(c3, 3, Returned);
    steps := ToStartedAgain();
    steps := Do(steps, Completed(NAME, 3, Returned), Alone(true, Starting([NAME], true), c3),
                Alone(true, Starting([NAME], true), c4));
    assert Resume(c4, SOON) == Restarted() by {
      assert Resume(c4, SOON).tasks == Restarted().tasks;
    }
    steps := Do(steps, Resumed(NAME, SOON), Alone(true, Starting([NAME], true), c4),
                Alone(true, Starting([NAME], true), Restarted()));
  }

  /** The stop of the component has timed out, and then the late cleanup reports success. */
  function Forgotten(): Component {
    Restarted().(nextRestartAt := 0.0, lateWait := None, tasks := Restarted().tasks + [Task(Stop, None, false)])
  }

  lemma ToStoppingAgain() returns (steps: seq<Step>)
    ensures IsRun(InitialWorld(60.0), steps)
    ensures After(InitialWorld(60.0), steps)
         == Alone(true, Stopping([NAME], true), Launch(Restarted(), Stop, ToShutDown))
  {
    var c := Restarted();
    steps := ToRestarted();
    steps := Do(steps, StopCall, Alone(true, Starting([NAME], true), c), Alone(true, Cancelling, c));
    assert Reverse([NAME]) == [NAME];
    steps := Do(steps, StopBegin, Alone(true, Cancelling, c), Alone(true, Stopping([NAME], false), c));
    assert !InFlight(c);
    steps := Do(steps, StopNext, Alone(true, Stopping([NAME], false), c),
                Alone(true, Stopping([NAME], true), Launch(c, Stop, ToShutDown)));
  }

  lemma ToForgotten() returns (steps: seq<Step>)
    ensures IsRun(InitialWorld(60.0), steps)
    ensures After(InitialWorld(60.0), steps) == Alone(true, Stopping([NAME], true), Forgotten())
  {
    var c := Launch(Restarted(), Stop, ToShutDown);
    var d := TimeOut(c, SOON);
    steps := ToStoppingAgain();
    steps := Do(steps, TimedOut(NAME, SOON), Alone(true, Stopping([NAME], true), c),
                Alone(true, Stopping([NAME], true), d));
    assert ResumeLate(d) == Forgotten();
    steps := Do(steps, LateResumed(NAME), Alone(true, Stopping([NAME], true), d),
                Alone(true, Stopping([NAME], true), Forgotten()));
  }

  /** Without promptness a component that may be live can be forgotten: stop has returned, no
      stop has succeeded since the last start, and configure accepts to discard the component. */
  lemma ForgottenWithoutPromptness() returns (steps: seq<Step>)
    ensures IsRun(InitialWorld(60.0), steps)
    ensures var w := After(InitialWorld(60.0), steps);
            w.phase.Down? && NAME in w.comps && Live(w.comps[NAME].tasks) && MayDiscard(w)
  {
    var c := Forgotten();
    steps := ToForgotten();
    assert [NAME][1..] == [];
    steps := Do(steps, StopAdvance, Alone(true, Stopping([NAME], true), c), Alone(true, Stopping([], false), c));
    steps := Do(steps, StopDone, Alone(true, Stopping([], false), c), Alone(false, Down, c));
    ForgottenIsLive();
  }

  lemma ForgottenIsLive()
    ensures Live(Forgotten().tasks)
  {
    var ts := Forgotten().tasks;
    assert Init(ts) == Restarted().tasks && Last(Init(ts)).kind == Start;
  }
}
