/** Backoff, restart times and the reset of the failure count. */
module SupervisorTiming {
  import opened Wrappers
  import opened SupervisedComponent
  import opened SupervisedSteps
  import opened RuntimeSupervisor
  import opened SupervisorPhases

  // ----- backoff -----

  lemma {:induction false} DoubledMonotone(x: real, m: nat, n: nat)
    requires 0.0 <= x && m <= n
    ensures x <= Doubled(x, m) <= Doubled(x, n)
    decreases n
  {
    if m < n {
      DoubledMonotone(x, m, n - 1);
    } else if n > 0 {
      DoubledMonotone(x, m - 1, n - 1);
    }
  }

  /** The delay before jitter never shrinks as failures accumulate, and stays between the
      initial and the maximal delay. */
  lemma BaseDelayMonotone(spec: Spec, k: nat, l: nat)
    requires spec.Valid() && 0 < k <= l
    ensures spec.initialDelay <= BaseDelay(spec, k) <= BaseDelay(spec, l) <= spec.maxDelay
  {
    DoubledMonotone(spec.initialDelay, Exponent(k), Exponent(l));
  }

  /** The first delay is the initial one; each further failure doubles it, up to the maximal
      delay and to the twenty-first failure. */
  lemma BaseDelayDoubles(spec: Spec, k: nat)
    requires spec.Valid() && k > 0
    ensures BaseDelay(spec, 1) == spec.initialDelay
    ensures k <= 20 ==>
              BaseDelay(spec, k + 1) == if 2.0 * BaseDelay(spec, k) <= spec.maxDelay then 2.0 * BaseDelay(spec, k)
                  else spec.maxDelay
    ensures k > 20 ==> BaseDelay(spec, k + 1) == BaseDelay(spec, k)
  {
    DoubledMonotone(spec.initialDelay, 0, Exponent(k));
  }

  /** The jitter function stays within a fifth of the delay it is given, as the default one does. */
  ghost predicate DefaultJitter(i: Input) {
    forall d: real :: 0.0 <= d ==> d * 0.8 <= i.jitter(d) <= d * 1.2
  }

  /** A delay is never negative nor above the maximum, whatever the jitter; with the default
      jitter it is at least four fifths of the base delay. */
  lemma DelayWindow(spec: Spec, k: nat, i: Input)
    requires spec.Valid() && k > 0
    ensures 0.0 <= Delay(spec, k, i) <= spec.maxDelay
    ensures DefaultJitter(i) ==> BaseDelay(spec, k) * 0.8 <= Delay(spec, k, i)
  {
    BaseDelayMonotone(spec, k, k);
  }

  lemma RetryWindow(c: Component, i: Input)
    requires c.spec.Valid()
    ensures i.now <= ScheduleRetry(c, i).nextRestartAt <= i.now + c.spec.maxDelay
    ensures DefaultJitter(i) ==> i.now + BaseDelay(c.spec, c.failures + 1) * 0.8 <= ScheduleRetry(c, i).nextRestartAt
  {
    DelayWindow(c.spec, c.failures + 1, i);
  }

  ghost predicate RetryOk(c: Component, clock: real) {
    c.spec.Valid() && 0.0 <= c.nextRestartAt <= clock + c.spec.maxDelay
  }

  function InputOf(s: Step): Option<Input> {
    match s
    case StartNext(i) => Some(i)
    case MaintainOne(_, i) => Some(i)
    case Resumed(_, i) => Some(i)
    case TimedOut(_, i) => Some(i)
    case _ => None
  }

  /** The clock after a step; steps that do not read it leave it alone. */
  function ClockAfter(clock: real, s: Step): real {
    if InputOf(s).Some? then InputOf(s).value.now else clock
  }

  /** A run in which the clock never goes back and configured delays are valid. */
  ghost predicate IsTimedRun(w: World, clock: real, steps: seq<Step>)
    decreases |steps|
  {
    steps != [] ==>
      && Enabled(w, steps[0])
      && clock <= ClockAfter(clock, steps[0])
      && (steps[0].Configure? ==> forall k :: 0 <= k < |steps[0].specs| ==> steps[0].specs[k].1.Valid())
      && IsTimedRun(Next(w, steps[0]), ClockAfter(clock, steps[0]), steps[1..])
  }

  function EndClock(clock: real, steps: seq<Step>): real
    decreases |steps|
  {
    if steps == [] then clock else EndClock(ClockAfter(clock, steps[0]), steps[1..])
  }

  lemma ResumeRetryOk(c: Component, clock: real, i: Input)
    requires RetryOk(c, clock) && 0.0 <= clock <= i.now
    requires c.wait.Some? && c.wait.value.id < |c.tasks| && !c.tasks[c.wait.value.id].Running()
    ensures RetryOk(Resume(c, i), i.now)
  {
  }

  lemma MaintainRetryOk(c: Component, clock: real, stableAfter: real, stopping: bool, i: Input)
    requires RetryOk(c, clock) && 0.0 <= clock <= i.now
    ensures RetryOk(Maintain(c, stableAfter, stopping, i), i.now)
  {
  }

  lemma TryStartRetryOk(c: Component, clock: real, i: Input)
    requires RetryOk(c, clock) && 0.0 <= clock <= i.now
    ensures RetryOk(TryStart(c, i), i.now)
  {
  }

  lemma TimeOutRetryOk(c: Component, clock: real, i: Input)
    requires RetryOk(c, clock) && 0.0 <= clock <= i.now && c.wait.Some?
    ensures RetryOk(TimeOut(c, i), i.now)
  {
  }

  lemma ConfigureRetryOk(specs: seq<(string, Spec)>, n: string, clock: real)
    requires (forall k :: 0 <= k < |specs| ==> specs[k].1.Valid()) && 0.0 <= clock && n in NamesOf(specs)
    ensures RetryOk(Configured(specs)[n], clock)
  {
  }

  lemma StepRetryOne(w: World, clock: real, s: Step, n: string)
    requires Enabled(w, s) && !s.Configure? && 0.0 <= clock <= ClockAfter(clock, s)
    requires n in w.comps && n in Next(w, s).comps && RetryOk(w.comps[n], clock)
    ensures RetryOk(Next(w, s).comps[n], ClockAfter(clock, s))
  {
    match s
    case StartNext(i) => TryStartRetryOk(w.comps[n], clock, i);
    case Resumed(m, i) => if m == n { ResumeRetryOk(w.comps[n], clock, i); }
    case TimedOut(m, i) => if m == n { TimeOutRetryOk(w.comps[n], clock, i); }
    case MaintainOne(m, i) => MaintainRetryOk(w.comps[n], clock, w.stableAfter, w.phase.Cancelling?, i);
    case _ =>
  }

  lemma StepRetryOk(w: World, clock: real, s: Step)
    requires Enabled(w, s) && 0.0 <= clock <= ClockAfter(clock, s)
    requires s.Configure? ==> forall k :: 0 <= k < |s.specs| ==> s.specs[k].1.Valid()
    requires forall n :: n in w.comps ==> RetryOk(w.comps[n], clock)
    ensures forall n :: n in Next(w, s).comps ==> RetryOk(Next(w, s).comps[n], ClockAfter(clock, s))
  {
    forall n | n in Next(w, s).comps
      ensures RetryOk(Next(w, s).comps[n], ClockAfter(clock, s))
    {
      if s.Configure? {
        ConfigureRetryOk(s.specs, n, clock);
      } else {
        StepRetryOne(w, clock, s, n);
      }
    }
  }

  /** In every run with a forward clock, each retry time lies at most the maximal delay
      ahead of the clock. */
  lemma {:induction false} RunRetryOk(w: World, clock: real, steps: seq<Step>)
    requires IsTimedRun(w, clock, steps) && 0.0 <= clock
    requires forall n :: n in w.comps ==> RetryOk(w.comps[n], clock)
    ensures IsRun(w, steps)
    ensures forall n :: n in After(w, steps).comps ==> RetryOk(After(w, steps).comps[n], EndClock(clock, steps))
    decreases |steps|
  {
    if steps != [] {
      StepRetryOk(w, clock, steps[0]);
      RunRetryOk(Next(w, steps[0]), ClockAfter(clock, steps[0]), steps[1..]);
    }
  }

  // ----- no early restart -----

  /** Only the monitor begins a restart, and only of a component that it does not see running
      and whose time has come; a time scheduled earlier is not moved. */
  lemma OnlyMaintainRestarts(w: World, s: Step, n: string, id: nat)
    requires Enabled(w, s) && !s.Configure? && n in w.comps && n in Next(w, s).comps
    requires Next(w, s).comps[n].wait == Some(Wait(id, ToRestart)) != w.comps[n].wait
    ensures s.MaintainOne? && s.name == n && !w.phase.Cancelling?
    ensures Next(w, s).comps[n].nextRestartAt <= s.input.now && !IsRunning(w.comps[n].(pending := Empty), s.input)
    ensures w.comps[n].nextRestartAt > 0.0 ==> Next(w, s).comps[n].nextRestartAt == w.comps[n].nextRestartAt
  {
  }

  /** The step is no call of start or stop that turns to `n`, no late cleanup of `n`, and no
      observation of `n` running. */
  ghost predicate LeftAlone(w: World, s: Step, n: string)
    requires Enabled(w, s) && n in w.comps
  {
    match s
    case Configure(_) => false
    case StartNext(_) => w.phase.todo[0] != n
    case StopNext => w.phase.todo[0] != n
    case LateBegins(m) => m != n
    case MaintainOne(m, i) => m == n ==> InFlight(w.comps[n]) || !IsRunning(w.comps[n].(pending := Empty), i)
    case _ => true
  }

  ghost predicate AllLeaveAlone(w: World, steps: seq<Step>, n: string)
    requires IsRun(w, steps)
    decreases |steps|
  {
    steps != [] ==>
      && n in w.comps && LeftAlone(w, steps[0], n)
      && AllLeaveAlone(Next(w, steps[0]), steps[1..], n)
  }

  /** Nothing works on the component, and its restart is due at `r`. */
  ghost predicate DueAt(c: Component, r: real, launches: nat) {
    c.nextRestartAt == r && c.wait.None? && |c.tasks| == launches
  }

  lemma StepWaits(w: World, s: Step, n: string, r: real, launches: nat)
    requires Enabled(w, s) && n in w.comps && DueAt(w.comps[n], r, launches) && LeftAlone(w, s, n)
    requires 0.0 < r && (InputOf(s).Some? ==> InputOf(s).value.now < r)
    ensures n in Next(w, s).comps && DueAt(Next(w, s).comps[n], r, launches)
  {
  }

  lemma {:induction false} ClockForward(w: World, clock: real, steps: seq<Step>)
    requires IsTimedRun(w, clock, steps)
    ensures IsRun(w, steps) && clock <= EndClock(clock, steps)
    decreases |steps|
  {
    if steps != [] { ClockForward(Next(w, steps[0]), ClockAfter(clock, steps[0]), steps[1..]); }
  }

  /** In every run with a forward clock, as long as the clock is below the time of the next
      restart, the component is not seen running, and nobody starts, stops or cleans it up,
      no callback of it is launched and the time stays. */
  lemma {:induction false} NoEarlyRestart(w: World, clock: real, steps: seq<Step>, n: string, r: real, launches: nat)
    requires IsTimedRun(w, clock, steps) && IsRun(w, steps) && AllLeaveAlone(w, steps, n)
    requires n in w.comps && DueAt(w.comps[n], r, launches) && 0.0 < r && EndClock(clock, steps) < r
    ensures n in After(w, steps).comps && DueAt(After(w, steps).comps[n], r, launches)
    decreases |steps|
  {
    if steps != [] {
      var u, now := Next(w, steps[0]), ClockAfter(clock, steps[0]);
      ClockForward(u, now, steps[1..]);
      StepWaits(w, steps[0], n, r, launches);
      NoEarlyRestart(u, now, steps[1..], n, r, launches);
    }
  }

  /** From `c` to `d` one failure was counted, and the retry was scheduled by the new count. */
  ghost predicate Counted(c: Component, d: Component, i: Input) {
    && d.failures == c.failures + 1 && d.spec == c.spec
    && d.nextRestartAt == i.now + Delay(c.spec, d.failures, i)
    && (d.wait.None? || d.wait == c.wait || d.nextRestartAt <= i.now)
  }

  lemma TryStartCounts(c: Component, i: Input)
    ensures TryStart(c, i).failures > c.failures ==> Counted(c, TryStart(c, i), i)
  {
  }

  lemma MaintainCounts(c: Component, stableAfter: real, stopping: bool, i: Input)
    ensures var d := Maintain(c, stableAfter, stopping, i); d.failures > c.failures ==> Counted(c, d, i)
  {
  }

  lemma ResumeCounts(c: Component, i: Input)
    requires c.wait.Some? && c.wait.value.id < |c.tasks| && !c.tasks[c.wait.value.id].Running()
    ensures Resume(c, i).failures > c.failures ==> Counted(c, Resume(c, i), i)
  {
  }

  lemma TimeOutCounts(c: Component, i: Input)
    requires c.wait.Some?
    ensures TimeOut(c, i).failures > c.failures ==> Counted(c, TimeOut(c, i), i)
  {
  }

  /** A step that counts a failure counts one, and schedules the retry by the new count. */
  lemma FailureCounted(w: World, s: Step, n: string)
    requires Enabled(w, s) && !s.Configure? && n in w.comps && n in Next(w, s).comps
    requires Next(w, s).comps[n].failures > w.comps[n].failures
    ensures InputOf(s).Some? && Counted(w.comps[n], Next(w, s).comps[n], InputOf(s).value)
    ensures s.StartNext? || Next(w, s).comps[n].wait.None? || Next(w, s).comps[n].nextRestartAt <= InputOf(s).value.now
    ensures s.StartNext? ==> w.phase.todo[0] == n
  {
    match s
    case StartNext(i) => TryStartCounts(w.comps[n], i);
    case MaintainOne(_, i) => MaintainCounts(w.comps[n], w.stableAfter, w.phase.Cancelling?, i);
    case Resumed(_, i) => ResumeCounts(w.comps[n], i);
    case TimedOut(_, i) => TimeOutCounts(w.comps[n], i);
    case _ =>
  }

  lemma FailureLeavesIdle(w: World, s: Step, n: string)
    requires PhaseSteady(w) && Enabled(w, s) && !s.Configure? && n in w.comps && n in Next(w, s).comps
    requires Next(w, s).comps[n].failures > w.comps[n].failures && InputOf(s).Some?
    requires InputOf(s).value.now < Next(w, s).comps[n].nextRestartAt
    ensures Next(w, s).comps[n].wait.None?
  {
    FailureCounted(w, s, n);
    if s.StartNext? {
      assert Waiting(w.phase.todo, w.phase.busy, n);
    }
  }

  /** The step counts a failure of `n`, with the default jitter. */
  ghost predicate CountsFailure(w: World, s: Step, n: string)
    requires Enabled(w, s)
  {
    && !s.Configure? && n in w.comps && n in Next(w, s).comps && w.comps[n].spec.Valid()
    && Next(w, s).comps[n].failures > w.comps[n].failures
    && InputOf(s).Some? && DefaultJitter(InputOf(s).value) && 0.0 <= InputOf(s).value.now
  }

  /** After the step, `n` is left to the monitor and not seen running, and the clock goes
      forward by less than four fifths of min(initial * 2^min(k-1, 20), max) for the k-th
      failure in a row. */
  ghost predicate WithinBackoff(w: World, s: Step, steps: seq<Step>, n: string)
    requires Enabled(w, s) && CountsFailure(w, s, n)
  {
    var now := InputOf(s).value.now;
    && IsTimedRun(Next(w, s), now, steps) && IsRun(Next(w, s), steps) && AllLeaveAlone(Next(w, s), steps, n)
    && EndClock(now, steps) < now + BaseDelay(w.comps[n].spec, w.comps[n].failures + 1) * 0.8
  }

  /** As long as the backoff lasts, no callback of the component is launched. */
  lemma BackoffFrom(w: World, s: Step, steps: seq<Step>, n: string)
    requires PhaseSteady(w) && Enabled(w, s) && CountsFailure(w, s, n) && WithinBackoff(w, s, steps, n)
    ensures n in After(Next(w, s), steps).comps
    ensures |After(Next(w, s), steps).comps[n].tasks| == |Next(w, s).comps[n].tasks|
  {
    var u, now := Next(w, s), InputOf(s).value.now;
    var d := u.comps[n];
    FailureCounted(w, s, n);
    DelayWindow(d.spec, d.failures, InputOf(s).value);
    ClockForward(u, now, steps);
    FailureLeavesIdle(w, s, n);
    NoEarlyRestart(u, now, steps, n, d.nextRestartAt, |d.tasks|);
  }

  /** In every run: when the k-th failure in a row is counted, the next callback of the
      component is launched no sooner than four fifths of the base delay later, unless
      somebody starts, stops or cleans it up or sees it running. */
  lemma BackoffKept(stableAfter: real, before: seq<Step>, s: Step, steps: seq<Step>, n: string)
    requires IsRun(InitialWorld(stableAfter), before)
    requires var w := After(InitialWorld(stableAfter), before);
             Enabled(w, s) && CountsFailure(w, s, n) && WithinBackoff(w, s, steps, n)
    ensures var u := Next(After(InitialWorld(stableAfter), before), s);
            n in u.comps && n in After(u, steps).comps && |After(u, steps).comps[n].tasks| == |u.comps[n].tasks|
  {
    AlwaysSteady(stableAfter, before);
    BackoffFrom(After(InitialWorld(stableAfter), before), s, steps, n);
  }

  // ----- the failure count -----

  lemma OnlyMaintainResets(w: World, s: Step, n: string)
    requires Enabled(w, s) && !s.Configure? && n in w.comps
    ensures n in Next(w, s).comps
    ensures Next(w, s).comps[n].failures < w.comps[n].failures ==>
              s.MaintainOne? && s.name == n && w.comps[n].failures > 0
  {
  }

  /** Every observation since one at least `stableAfter` ago saw the component running. */
  ghost predicate StableFor(seen: seq<Observation>, now: real, stableAfter: real) {
    exists k :: 0 <= k < |seen| && now - seen[k].at >= stableAfter && AllRunning(seen[k..])
  }

  lemma MaintainResets(c: Component, stableAfter: real, stopping: bool, i: Input)
    requires StableOk(c) && Maintain(c, stableAfter, stopping, i).failures < c.failures
    ensures Maintain(c, stableAfter, stopping, i).failures == 0
    ensures StableFor(Maintain(c, stableAfter, stopping, i).seen, i.now, stableAfter)
  {
    var d := Maintain(c, stableAfter, stopping, i);
    if c.stableSince.Some? {
      ObserveRunning(c.seen, c.stableSince.value, i.now);
      var k :| 0 <= k < |d.seen| && d.seen[k].at == c.stableSince.value && AllRunning(d.seen[k..]);
    } else {
      assert d.seen[|c.seen|..] == [Observation(i.now, true)];
      assert d.seen[|c.seen|].at == i.now;
    }
  }

  /** In every run: the failure count goes down only when every observation since some
      observation at least `stableAfter` ago saw the component running, and then to zero. */
  lemma FailuresResetOnlyWhenStable(stableAfter: real, steps: seq<Step>, s: Step, n: string)
    requires IsRun(InitialWorld(stableAfter), steps) && Enabled(After(InitialWorld(stableAfter), steps), s)
    requires var w := After(InitialWorld(stableAfter), steps);
             && !s.Configure? && n in w.comps && n in Next(w, s).comps
             && Next(w, s).comps[n].failures < w.comps[n].failures
    ensures var w := After(InitialWorld(stableAfter), steps);
            && Next(w, s).comps[n].failures == 0 && s.MaintainOne? && n in Next(w, s).comps
            && StableFor(Next(w, s).comps[n].seen, s.input.now, w.stableAfter)
  {
    var w := After(InitialWorld(stableAfter), steps);
    AlwaysSteady(stableAfter, steps);
    assert Steadied(w.comps[n]);
    OnlyMaintainResets(w, s, n);
    MaintainResets(w.comps[n], w.stableAfter, w.phase.Cancelling?, s.input);
  }
}
