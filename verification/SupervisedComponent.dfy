/** One component of the runtime supervisor: what each uninterrupted stretch of code
    between two awaits does to it. */
module SupervisedComponent {
  import opened Wrappers

  datatype Kind = Start | Stop

  datatype Outcome = Returned | Raised | Cancelled

  /** One launched lifecycle callback. `result` is empty while it is in flight;
      `calledBack` says that its completion callback has run. */
  datatype Task = Task(kind: Kind, result: Option<Outcome>, calledBack: bool)
  {
    predicate Running() { result.None? }

    predicate StoppedWell() { kind == Stop && result == Some(Returned) }
  }

  /** The `pending` field: nothing, the callback with this number, or a late cleanup that
      has been scheduled and has not begun. */
  datatype Slot = Empty | Callback(id: nat) | LateCleanup(cancelled: bool)

  /** What a suspended coroutine goes on with when its lifecycle call returns. */
  datatype Purpose = ToClean | ToStart | ToRestart | ToShutDown

  datatype Wait = Wait(id: nat, purpose: Purpose)

  datatype Spec = Spec(initialDelay: real, maxDelay: real)
  {
    predicate Valid() { 0.0 <= initialDelay <= maxDelay }
  }

  /** `wait` is the coroutine of start, stop or the monitor that is suspended on this
      component, `lateWait` a late cleanup suspended on it. `tasks` is the history of all
      launches and `seen` that of all observations of the running state. */
  datatype Component = Component(
    spec: Spec,
    failures: nat,
    restarts: nat,
    nextRestartAt: real,
    stableSince: Option<real>,
    pending: Slot,
    needsCleanup: bool,
    wait: Option<Wait>,
    lateWait: Option<nat>,
    tasks: seq<Task>,
    seen: seq<Observation>)

  datatype Observation = Observation(at: real, running: bool)

  /** What the environment supplies to one stretch of code: the clock, the answer of the
      component's own running check and one call of the jitter function. */
  datatype Input = Input(now: real, alive: bool, jitter: real -> real)

  function Fresh(spec: Spec): Component {
    Component(spec, 0, 0, 0.0, None, Empty, false, None, None, [], [])
  }

  function Last(ts: seq<Task>): Task
    requires ts != []
  {
    ts[|ts| - 1]
  }

  function Init(ts: seq<Task>): seq<Task>
    requires ts != []
  {
    ts[..|ts| - 1]
  }

  /** The slot holds a task that is not done. */
  predicate InFlight(c: Component) {
    match c.pending
    case Empty => false
    case Callback(id) => id < |c.tasks| && c.tasks[id].Running()
    case LateCleanup(_) => true
  }

  /** `x` times two to the power `n`. */
  function Doubled(x: real, n: nat): real { if n == 0 then x else 2.0 * Doubled(x, n - 1) }

  function MinReal(a: real, b: real): real { if a <= b then a else b }

  function Exponent(failures: nat): nat
    requires failures > 0
  {
    if failures - 1 <= 20 then failures - 1 else 20
  }

  function BaseDelay(spec: Spec, failures: nat): real
    requires failures > 0
  {
    MinReal(Doubled(spec.initialDelay, Exponent(failures)), spec.maxDelay)
  }

  function MaxReal(a: real, b: real): real { if a >= b then a else b }

  /** The delay before the retry that follows this many failures in a row. */
  function Delay(spec: Spec, failures: nat, i: Input): real
    requires failures > 0
  {
    MinReal(spec.maxDelay, MaxReal(0.0, i.jitter(BaseDelay(spec, failures))))
  }

  function ScheduleRetry(c: Component, i: Input): Component {
    c.(failures := c.failures + 1, nextRestartAt := i.now + Delay(c.spec, c.failures + 1, i))
  }

  /** Asks the pending task to stop; a late cleanup that has not begun never will. */
  function CancelPending(c: Component): Component {
    if c.pending.LateCleanup? then c.(pending := LateCleanup(true)) else c
  }

  function Launch(c: Component, kind: Kind, purpose: Purpose): Component {
    c.(pending := Callback(|c.tasks|),
       tasks := c.tasks + [Task(kind, None, false)],
       wait := Some(Wait(|c.tasks|, purpose)))
  }

  function IsRunning(c: Component, i: Input): bool {
    !c.needsCleanup && !InFlight(c) && i.alive
  }

  function Observe(c: Component, i: Input): Component {
    c.(seen := c.seen + [Observation(i.now, IsRunning(c, i))])
  }

  function LaunchStart(c: Component, i: Input): Component {
    if InFlight(c) then ScheduleRetry(CancelPending(c), i) else Launch(c, Start, ToStart)
  }

  function TryStart(c: Component, i: Input): Component {
    if !c.needsCleanup then LaunchStart(c, i)
    else if InFlight(c) then ScheduleRetry(CancelPending(c), i)
    else Launch(c, Stop, ToClean)
  }

  function ShutDown(c: Component): Component {
    if InFlight(c) then AfterShutDown(CancelPending(c)) else Launch(c, Stop, ToShutDown)
  }

  function AfterShutDown(c: Component): Component {
    c.(stableSince := None, nextRestartAt := 0.0)
  }

  function AfterStart(c: Component, i: Input): Component {
    var seen := Observe(c, i);
    if IsRunning(c, i) then
      seen.(stableSince := Some(i.now), nextRestartAt := 0.0)
    else
      ScheduleRetry(seen, i)
  }

  /** The lifecycle call returned false or raised. */
  function AfterFailure(c: Component, purpose: Purpose, i: Input): Component {
    if purpose == ToShutDown then AfterShutDown(c) else ScheduleRetry(c, i)
  }

  function AfterSuccess(c: Component, purpose: Purpose, i: Input): Component {
    match purpose
    case ToClean => LaunchStart(c, i)
    case ToStart => AfterStart(c, i)
    case ToRestart => TryStart(c.(restarts := c.restarts + 1, nextRestartAt := 0.0), i)
    case ToShutDown => AfterShutDown(c)
  }

  /** The suspended coroutine finds its callback done. The slot is cleared without looking
      at what it holds. */
  function Resume(c: Component, i: Input): Component
    requires c.wait.Some? && c.wait.value.id < |c.tasks| && !c.tasks[c.wait.value.id].Running()
  {
    var w := c.wait.value;
    var idle := c.(pending := Empty, wait := None);
    if c.tasks[w.id].result == Some(Returned) then
      AfterSuccess(idle.(needsCleanup := false), w.purpose, i)
    else
      AfterFailure(idle.(needsCleanup := true), w.purpose, i)
  }

  function TimeOut(c: Component, i: Input): Component
    requires c.wait.Some?
  {
    AfterFailure(c.(needsCleanup := true, wait := None), c.wait.value.purpose, i)
  }

  /** The suspended coroutine is itself cancelled. */
  function CancelWait(c: Component): Component {
    c.(needsCleanup := true, wait := None)
  }

  /** The component was seen running. */
  function Steady(c: Component, stableAfter: real, i: Input): Component {
    var since := if c.stableSince.None? then i.now else c.stableSince.value;
    c.(stableSince := Some(since),
       failures := if c.failures > 0 && i.now - since >= stableAfter then 0 else c.failures,
       nextRestartAt := 0.0)
  }

  /** The component was seen not running; a restart begins when its time has come. */
  function Recover(c: Component, stopping: bool, i: Input): Component {
    var lost := c.(stableSince := None);
    var due := if lost.nextRestartAt <= 0.0 then ScheduleRetry(lost, i) else lost;
    if i.now < due.nextRestartAt || stopping then due else Launch(due, Stop, ToRestart)
  }

  /** One pass of the monitor; `stopping` says that a stop has been called. */
  function Maintain(c: Component, stableAfter: real, stopping: bool, i: Input): Component {
    if InFlight(c) then c else
      var idle := c.(pending := Empty);
      if IsRunning(idle, i) then Steady(Observe(idle, i), stableAfter, i) else Recover(Observe(idle, i), stopping, i)
  }

  function Complete(c: Component, id: nat, outcome: Outcome): Component
    requires id < |c.tasks|
  {
    c.(tasks := c.tasks[id := c.tasks[id].(result := Some(outcome))])
  }

  /** The completion callback of a task: a start that ends after shutdown schedules a
      cleanup of its own. */
  function CallBack(c: Component, id: nat, started: bool): Component
    requires id < |c.tasks|
  {
    var called := c.(tasks := c.tasks[id := c.tasks[id].(calledBack := true)]);
    if !started && c.tasks[id].kind == Start then called.(pending := LateCleanup(false)) else called
  }

  function RunLate(c: Component): Component
    requires c.pending.LateCleanup?
  {
    if c.pending.cancelled then c.(pending := Empty) else
      c.(pending := Callback(|c.tasks|), tasks := c.tasks + [Task(Stop, None, false)], lateWait := Some(|c.tasks|))
  }

  function ResumeLate(c: Component): Component
    requires c.lateWait.Some? && c.lateWait.value < |c.tasks|
  {
    c.(pending := Empty, lateWait := None, needsCleanup := c.tasks[c.lateWait.value].result != Some(Returned))
  }

  function TimeOutLate(c: Component): Component {
    c.(lateWait := None, needsCleanup := true)
  }

  // ----- the invariant -----

  /** A start was launched, and no stop has completed successfully since. */
  ghost predicate Live(ts: seq<Task>) {
    ts != [] && (Last(ts).kind == Start || (!Last(ts).StoppedWell() && Live(Init(ts))))
  }

  /** No start was launched on a component that might be live. */
  ghost predicate Separated(ts: seq<Task>) {
    ts != [] ==> Separated(Init(ts)) && (Last(ts).kind == Start ==> !Live(Init(ts)))
  }

  /** Every callback but the last is done. */
  ghost predicate OneInFlight(ts: seq<Task>) {
    forall k :: 0 <= k < |ts| - 1 ==> !ts[k].Running()
  }

  ghost predicate SlotOk(c: Component) {
    && (c.pending.Callback? ==> c.pending.id + 1 == |c.tasks|)
    && (c.tasks != [] && Last(c.tasks).Running() ==> c.pending == Callback(|c.tasks| - 1))
    && (c.pending.LateCleanup? ==>
          && c.wait.None? && c.lateWait.None? && c.tasks != []
          && !Last(c.tasks).Running())
  }

  ghost predicate WaitOk(c: Component, started: bool) {
    && (c.wait.Some? ==>
          && c.lateWait.None?
          && c.wait.value.id + 1 == |c.tasks|
          && c.pending == Callback(c.wait.value.id)
          && (c.wait.value.purpose == ToStart <==> Last(c.tasks).kind == Start)
          && (c.wait.value.purpose != ToShutDown ==> c.stableSince.None? && started))
    && (c.lateWait.Some? ==>
          && c.lateWait.value + 1 == |c.tasks|
          && (c.pending == Callback(c.lateWait.value) || (c.pending.Empty? && !Last(c.tasks).Running()))
          && Last(c.tasks).kind == Stop)
    && (c.wait.None? && InFlight(c) ==> c.needsCleanup)
  }

  /** Since `stableSince` every observation saw the component running. */
  ghost predicate StableOk(c: Component) {
    c.stableSince.Some? ==> RunningSince(c.seen, c.stableSince.value)
  }

  ghost predicate RunningSince(seen: seq<Observation>, since: real) {
    exists k :: 0 <= k < |seen| && seen[k].at == since && AllRunning(seen[k..])
  }

  ghost predicate AllRunning(seen: seq<Observation>) {
    forall k :: 0 <= k < |seen| ==> seen[k].running
  }

  ghost predicate ComponentInv(c: Component, started: bool) {
    && OneInFlight(c.tasks)
    && Separated(c.tasks)
    && SlotOk(c)
    && WaitOk(c, started)
    && StableOk(c)
    && (!started && c.wait.None? && Live(c.tasks) ==> c.needsCleanup)
  }

  /** No coroutine works on the component, and if it might be live it is flagged. */
  ghost predicate Quiet(c: Component) {
    && c.wait.None?
    && c.stableSince.None?
    && (Live(c.tasks) ==> c.needsCleanup)
  }

  /** No late cleanup waits for a callback that is done. */
  ghost predicate Settled(c: Component) {
    c.lateWait.Some? && c.lateWait.value < |c.tasks| ==> c.tasks[c.lateWait.value].Running()
  }

  /** The step from `c` to `d` launched no callback, or none had to be waited for. */
  ghost predicate LaunchedSettled(c: Component, d: Component) {
    Settled(c) || |d.tasks| == |c.tasks|
  }

  /** Nothing is in flight or awaited, and the component is marked for cleanup. */
  ghost predicate Unclaimed(c: Component) {
    && (c.tasks != [] ==> !Last(c.tasks).Running())
    && c.wait.None? && c.lateWait.None? && c.needsCleanup
  }

  /** The completion callback of every start that is done has run. */
  ghost predicate StartsReported(c: Component) {
    forall k :: 0 <= k < |c.tasks| && !c.tasks[k].Running() && c.tasks[k].kind == Start ==> c.tasks[k].calledBack
  }
}
