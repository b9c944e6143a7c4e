/** Token refresh, login and logout across browser tabs that share one local storage. Each
    step is one stretch of code between two awaits. Cookie-changing operations queue up
    within their tab and hold the browser-wide session lock while they run. */
module SessionProtocol {
  import opened Wrappers

  /** What a locked operation does when it runs. A refresh remembers the token it was asked to
      renew. */
  datatype Kind = Refresh(previous: Option<string>) | Login | LogoutCall

  datatype Status = Queued | Posted | Finished

  /** `generation` is the session generation in which the operation was requested; `epoch` is
      how many generations there had been by then. */
  datatype Op = Op(tab: nat, kind: Kind, generation: string, epoch: nat, status: Status)

  /** `inFlight` is the refresh that new callers join; `queue` lists the tab's unfinished locked
      operations in order of request. */
  datatype Tab = Tab(inFlight: Option<nat>, queue: seq<nat>)

  /** `generations` are all generation values stored so far, the current one last; `written`
      are the refreshes that stored a token, with the epoch in which they did. */
  datatype World = World(
    generations: seq<string>,
    token: Option<string>,
    tabs: map<nat, Tab>,
    ops: seq<Op>,
    lock: Option<nat>,
    written: seq<(nat, nat)>)

  function Current(w: World): string {
    if w.generations == [] then "" else w.generations[|w.generations| - 1]
  }

  function Epoch(w: World): nat { |w.generations| }

  function TabOf(w: World, tab: nat): Tab {
    if tab in w.tabs then w.tabs[tab] else Tab(None, [])
  }

  /** A fresh random generation makes every earlier request stale; the tab's own refresh is no
      longer joined. */
  function Invalidate(w: World, tab: nat, uuid: string): World {
    w.(generations := w.generations + [uuid], tabs := w.tabs[tab := TabOf(w, tab).(inFlight := None)])
  }

  function Enqueue(w: World, tab: nat, kind: Kind): World {
    var t := TabOf(w, tab);
    var id := |w.ops|;
    w.(ops := w.ops + [Op(tab, kind, Current(w), Epoch(w), Queued)],
       tabs := w.tabs[tab := Tab(if kind.Refresh? then Some(id) else t.inFlight, t.queue + [id])])
  }

  /** The operation ends, well or not: its tab goes on with the next one, the lock is free and
      a finished refresh is not joined any more. */
  function Finish(w: World, id: nat): World
    requires id < |w.ops|
  {
    var op := w.ops[id];
    var t := TabOf(w, op.tab);
    w.(ops := w.ops[id := op.(status := Finished)],
       lock := None,
       tabs := w.tabs[op.tab := Tab(if t.inFlight == Some(id) then None else t.inFlight,
                                    if t.queue == [] then [] else t.queue[1..])])
  }

  datatype Step =
    | AskRefresh(tab: nat)
    | AskLogin(tab: nat, uuid: string)
    | Logout(tab: nat, uuid: string)
    | SaveToken(tab: nat, uuid: string, token: string)
    | ClearSession(tab: nat, uuid: string)
    | Begin(id: nat)
    | Respond(id: nat, answer: Option<string>, uuid: string)

  /** A refresh that finds a token renewed by another tab returns it; one whose generation is
      over ends without a request. */
  predicate EndsAtOnce(w: World, op: Op) {
    match op.kind
    case Refresh(previous) =>
      op.generation != Current(w) || (w.token.Some? && w.token.value != "" && w.token != previous)
    case Login => op.generation != Current(w)
    case LogoutCall => false
  }

  function PostOp(w: World, id: nat): World
    requires id < |w.ops|
  {
    w.(lock := Some(id), ops := w.ops[id := w.ops[id].(status := Posted)])
  }

  function BeginOp(w: World, id: nat): World
    requires id < |w.ops|
  {
    if EndsAtOnce(w, w.ops[id]) then Finish(w, id)
    else PostOp(w, id)
  }

  /** The answer has come. It is used only if the generation of the request is still current. */
  function RespondOp(w: World, id: nat, token: Option<string>, uuid: string): World
    requires id < |w.ops|
  {
    var op := w.ops[id];
    var done := Finish(w, id);
    if token.None? || op.kind.LogoutCall? || op.generation != Current(w) then done
    else if op.kind.Login? then Invalidate(done, op.tab, uuid).(token := token)
    else done.(token := token, written := w.written + [(id, Epoch(w))])
  }

  ghost predicate Fresh(w: World, uuid: string) { uuid !in w.generations && uuid != "" }

  ghost predicate Enabled(w: World, s: Step) {
    match s
    case AskRefresh(_) => true
    case AskLogin(_, uuid) => Fresh(w, uuid)
    case Logout(_, uuid) => Fresh(w, uuid)
    case SaveToken(_, uuid, _) => Fresh(w, uuid)
    case ClearSession(_, uuid) => Fresh(w, uuid)
    case Begin(id) => id < |w.ops| && w.ops[id].status == Queued && w.lock.None?
                      && TabOf(w, w.ops[id].tab).queue != [] && TabOf(w, w.ops[id].tab).queue[0] == id
    case Respond(id, _, uuid) => id < |w.ops| && w.ops[id].status == Posted && Fresh(w, uuid)
  }

  function Next(w: World, s: Step): World
    requires s.Begin? || s.Respond? ==> s.id < |w.ops|
  {
    match s
    case AskRefresh(tab) => if TabOf(w, tab).inFlight.Some? then w else Enqueue(w, tab, Refresh(w.token))
    case AskLogin(tab, uuid) => Enqueue(Invalidate(w, tab, uuid), tab, Login)
    case Logout(tab, uuid) => Enqueue(Invalidate(w, tab, uuid).(token := None), tab, LogoutCall)
    case SaveToken(tab, uuid, token) => Invalidate(w, tab, uuid).(token := Some(token))
    case ClearSession(tab, uuid) => Invalidate(w, tab, uuid).(token := None)
    case Begin(id) => BeginOp(w, id)
    case Respond(id, token, uuid) => RespondOp(w, id, token, uuid)
  }

  // ----- the invariant -----

  /** The generation of an operation is the one that was current in its epoch. */
  ghost predicate EpochOk(w: World, op: Op) {
    op.epoch <= Epoch(w) && op.generation == if op.epoch == 0 then "" else w.generations[op.epoch - 1]
  }

  ghost predicate GenerationsOk(w: World) {
    && "" !in w.generations
    && (forall i, j :: 0 <= i < j < |w.generations| ==> w.generations[i] != w.generations[j])
    && (forall id :: 0 <= id < |w.ops| ==> EpochOk(w, w.ops[id]))
  }

  /** The queue of a tab lists exactly its unfinished operations, in order of request. */
  ghost predicate Lists(ops: seq<Op>, q: seq<nat>, tab: nat) {
    && (forall i :: 0 <= i < |q| ==> q[i] < |ops| && ops[q[i]].tab == tab && ops[q[i]].status != Finished)
    && (forall i, j :: 0 <= i < j < |q| ==> q[i] < q[j])
    && (forall i :: 0 < i < |q| ==> ops[q[i]].status == Queued)
    && (forall id {:trigger id in q} :: 0 <= id < |ops| && ops[id].tab == tab && ops[id].status != Finished ==> id in q)
  }

  ghost predicate QueueOk(w: World, tab: nat) {
    Lists(w.ops, TabOf(w, tab).queue, tab)
  }

  /** Only the holder of the lock is running. */
  ghost predicate LockOk(w: World) {
    && (w.lock.Some? ==> w.lock.value < |w.ops| && w.ops[w.lock.value].status == Posted)
    && (forall id :: 0 <= id < |w.ops| && w.ops[id].status == Posted ==> w.lock == Some(id))
  }

  /** An unfinished refresh that callers no longer join was requested in an earlier epoch. */
  ghost predicate FlightOk(w: World, tab: nat) {
    var f := TabOf(w, tab).inFlight;
    && (f.Some? ==>
          && f.value < |w.ops| && w.ops[f.value].tab == tab
          && w.ops[f.value].kind.Refresh? && w.ops[f.value].status != Finished)
    && (forall id :: 0 <= id < |w.ops| && w.ops[id].tab == tab
                     && w.ops[id].kind.Refresh? && w.ops[id].status != Finished ==>
          f == Some(id) || w.ops[id].epoch < Epoch(w))
  }

  /** Every refresh that stored a token did so in the epoch in which it was requested. */
  ghost predicate WritesOk(w: World) {
    forall k :: 0 <= k < |w.written| ==>
      && w.written[k].0 < |w.ops| && w.ops[w.written[k].0].kind.Refresh?
      && w.ops[w.written[k].0].epoch == w.written[k].1
  }

  predicate Unfinished(op: Op) { op.kind.Refresh? && op.status != Finished }

  /** Two unfinished refreshes of one tab were requested in different epochs. */
  ghost predicate RefreshesDiffer(w: World) {
    forall a, b :: 0 <= a < b < |w.ops| && w.ops[a].tab == w.ops[b].tab
                   && Unfinished(w.ops[a]) && Unfinished(w.ops[b]) ==>
                     w.ops[a].epoch < w.ops[b].epoch
  }

  ghost predicate Inv(w: World) {
    && GenerationsOk(w)
    && LockOk(w)
    && WritesOk(w)
    && RefreshesDiffer(w)
    && (forall tab :: QueueOk(w, tab) && FlightOk(w, tab))
  }

  lemma InvalidateInv(w: World, tab: nat, uuid: string)
    requires Inv(w) && Fresh(w, uuid)
    ensures Inv(Invalidate(w, tab, uuid))
  {
    var u := Invalidate(w, tab, uuid);
    forall t
      ensures QueueOk(u, t) && FlightOk(u, t)
    {
      assert QueueOk(w, t) && FlightOk(w, t);
    }
    forall id | 0 <= id < |u.ops|
      ensures EpochOk(u, u.ops[id])
    {
      assert EpochOk(w, w.ops[id]);
    }
  }

  lemma EnqueueInv(w: World, tab: nat, kind: Kind)
    requires Inv(w) && (kind.Refresh? ==> TabOf(w, tab).inFlight.None?)
    ensures Inv(Enqueue(w, tab, kind))
  {
    var u := Enqueue(w, tab, kind);
    forall t
      ensures QueueOk(u, t) && FlightOk(u, t)
    {
      EnqueueQueue(w, tab, kind, t);
      EnqueueFlight(w, tab, kind, t);
    }
    forall id | 0 <= id < |u.ops|
      ensures EpochOk(u, u.ops[id])
    {
      assert id < |w.ops| ==> EpochOk(w, w.ops[id]);
    }
    EnqueueDiffers(w, tab, kind);
  }

  lemma EnqueueDiffers(w: World, tab: nat, kind: Kind)
    requires RefreshesDiffer(w) && FlightOk(w, tab) && (kind.Refresh? ==> TabOf(w, tab).inFlight.None?)
    ensures RefreshesDiffer(Enqueue(w, tab, kind))
  {
  }

  lemma EnqueueQueue(w: World, tab: nat, kind: Kind, t: nat)
    requires QueueOk(w, t)
    ensures QueueOk(Enqueue(w, tab, kind), t)
  {
    var u := Enqueue(w, tab, kind);
    var q, r, n := TabOf(w, t).queue, TabOf(u, t).queue, |w.ops|;
    assert forall id :: 0 <= id < n ==> u.ops[id] == w.ops[id];
    if t == tab {
      assert r == q + [n];
      forall id | 0 <= id < |u.ops| && u.ops[id].tab == t && u.ops[id].status != Finished
        ensures id in r
      {
        assert r[|q|] == n;
        assert id < n ==> id in q;
      }
    } else {
      assert r == q;
    }
  }

  lemma EnqueueFlight(w: World, tab: nat, kind: Kind, t: nat)
    requires FlightOk(w, t) && (kind.Refresh? ==> TabOf(w, tab).inFlight.None?)
    ensures FlightOk(Enqueue(w, tab, kind), t)
  {
  }

  /** The operation that ends is the first of its tab's queue and nothing else is running. */
  ghost predicate CanFinish(w: World, id: nat) {
    && id < |w.ops| && w.ops[id].status != Finished
    && (w.lock == None || w.lock == Some(id))
    && TabOf(w, w.ops[id].tab).queue != [] && TabOf(w, w.ops[id].tab).queue[0] == id
  }

  lemma DropFirst(ops: seq<Op>, q: seq<nat>, tab: nat, op: Op)
    requires Lists(ops, q, tab) && q != [] && op.status == Finished && op.tab == tab
    ensures Lists(ops[q[0] := op], q[1..], tab)
  {
    var us, r := ops[q[0] := op], q[1..];
    forall i | 0 <= i < |r|
      ensures r[i] != q[0] && us[r[i]] == ops[r[i]]
    {
      assert r[i] == q[i + 1];
    }
    forall id | 0 <= id < |us| && us[id].tab == tab && us[id].status != Finished
      ensures id in r
    {
      assert id in q && q == [q[0]] + r;
    }
  }

  lemma OtherTab(ops: seq<Op>, q: seq<nat>, tab: nat, id: nat, op: Op)
    requires Lists(ops, q, tab) && id < |ops| && ops[id].tab != tab && op.tab != tab
    ensures Lists(ops[id := op], q, tab)
  {
    var us := ops[id := op];
    assert forall i :: 0 <= i < |q| ==> us[q[i]] == ops[q[i]];
  }

  lemma FinishQueue(w: World, id: nat, t: nat)
    requires QueueOk(w, t) && CanFinish(w, id)
    ensures QueueOk(Finish(w, id), t)
  {
    var op := w.ops[id];
    if t == op.tab {
      DropFirst(w.ops, TabOf(w, t).queue, t, op.(status := Finished));
    } else {
      OtherTab(w.ops, TabOf(w, t).queue, t, id, op.(status := Finished));
    }
  }

  lemma FinishFlight(w: World, id: nat, t: nat)
    requires FlightOk(w, t) && CanFinish(w, id)
    ensures FlightOk(Finish(w, id), t)
  {
  }

  lemma FinishInv(w: World, id: nat)
    requires Inv(w) && CanFinish(w, id)
    ensures Inv(Finish(w, id))
  {
    var u := Finish(w, id);
    forall t
      ensures QueueOk(u, t) && FlightOk(u, t)
    {
      FinishQueue(w, id, t);
      FinishFlight(w, id, t);
    }
    forall i | 0 <= i < |u.ops|
      ensures EpochOk(u, u.ops[i])
    {
      assert EpochOk(w, w.ops[i]);
    }
  }

  lemma PostQueue(w: World, id: nat, t: nat)
    requires Enabled(w, Begin(id)) && QueueOk(w, t)
    ensures QueueOk(PostOp(w, id), t)
  {
    var q := TabOf(w, t).queue;
    assert forall i :: 0 < i < |q| ==> q[0] < q[i];
  }

  lemma PostFlight(w: World, id: nat, t: nat)
    requires Enabled(w, Begin(id)) && FlightOk(w, t)
    ensures FlightOk(PostOp(w, id), t)
  {
  }

  lemma PostInv(w: World, id: nat)
    requires Inv(w) && Enabled(w, Begin(id))
    ensures Inv(PostOp(w, id))
  {
    var u := PostOp(w, id);
    forall t
      ensures QueueOk(u, t) && FlightOk(u, t)
    {
      PostQueue(w, id, t);
      PostFlight(w, id, t);
    }
    forall i | 0 <= i < |u.ops|
      ensures EpochOk(u, u.ops[i])
    {
      assert EpochOk(w, w.ops[i]);
    }
  }

  /** A generation value identifies its epoch. */
  lemma SameEpoch(w: World, id: nat)
    requires GenerationsOk(w) && id < |w.ops|
    ensures w.ops[id].generation == Current(w) <==> w.ops[id].epoch == Epoch(w)
  {
    assert EpochOk(w, w.ops[id]);
  }

  lemma PostedIsFirst(w: World, id: nat)
    requires Inv(w) && id < |w.ops| && w.ops[id].status == Posted
    ensures CanFinish(w, id)
  {
    var tab := w.ops[id].tab;
    assert QueueOk(w, tab);
    var q := TabOf(w, tab).queue;
    assert id in q;
    var i :| 0 <= i < |q| && q[i] == id;
    assert i == 0;
  }

  lemma RespondInv(w: World, id: nat, answer: Option<string>, uuid: string)
    requires Inv(w) && Enabled(w, Respond(id, answer, uuid))
    ensures Inv(RespondOp(w, id, answer, uuid))
  {
    var op := w.ops[id];
    var done := Finish(w, id);
    PostedIsFirst(w, id);
    FinishInv(w, id);
    SameEpoch(w, id);
    if answer.Some? && !op.kind.LogoutCall? && op.generation == Current(w) {
      if op.kind.Login? {
        InvalidateInv(done, op.tab, uuid);
        SetTokenInv(Invalidate(done, op.tab, uuid), answer);
      } else {
        SetTokenInv(done, answer);
        WriteInv(done.(token := answer), id);
      }
    }
  }

  lemma SetTokenInv(w: World, token: Option<string>)
    requires Inv(w)
    ensures Inv(w.(token := token))
  {
    var u := w.(token := token);
    forall t
      ensures QueueOk(u, t) && FlightOk(u, t)
    {
      assert QueueOk(w, t) && FlightOk(w, t);
    }
    assert forall i :: 0 <= i < |w.ops| ==> EpochOk(w, w.ops[i]);
  }

  lemma WriteInv(w: World, id: nat)
    requires Inv(w) && id < |w.ops| && w.ops[id].kind.Refresh? && w.ops[id].epoch == Epoch(w)
    ensures Inv(w.(written := w.written + [(id, Epoch(w))]))
  {
    var u := w.(written := w.written + [(id, Epoch(w))]);
    forall t
      ensures QueueOk(u, t) && FlightOk(u, t)
    {
      assert QueueOk(w, t) && FlightOk(w, t);
    }
    assert forall i :: 0 <= i < |w.ops| ==> EpochOk(w, w.ops[i]);
  }

  lemma StepKeepsInv(w: World, s: Step)
    requires Inv(w) && Enabled(w, s)
    ensures Inv(Next(w, s)) && Epoch(w) <= Epoch(Next(w, s)) && w.written <= Next(w, s).written
  {
    match s
    case AskRefresh(tab) =>
      if TabOf(w, tab).inFlight.None? { EnqueueInv(w, tab, Refresh(w.token)); }
    case AskLogin(tab, uuid) =>
      InvalidateInv(w, tab, uuid);
      EnqueueInv(Invalidate(w, tab, uuid), tab, Login);
    case Logout(tab, uuid) =>
      InvalidateInv(w, tab, uuid);
      SetTokenInv(Invalidate(w, tab, uuid), None);
      EnqueueInv(Invalidate(w, tab, uuid).(token := None), tab, LogoutCall);
    case SaveToken(tab, uuid, token) =>
      InvalidateInv(w, tab, uuid);
      SetTokenInv(Invalidate(w, tab, uuid), Some(token));
    case ClearSession(tab, uuid) =>
      InvalidateInv(w, tab, uuid);
      SetTokenInv(Invalidate(w, tab, uuid), None);
    case Begin(id) =>
      if EndsAtOnce(w, w.ops[id]) { FinishInv(w, id); } else { PostInv(w, id); }
    case Respond(id, answer, uuid) =>
      RespondInv(w, id, answer, uuid);
  }

  // ----- whole runs -----

  ghost predicate IsRun(w: World, steps: seq<Step>)
    decreases |steps|
  {
    steps != [] ==> Enabled(w, steps[0]) && IsRun(Next(w, steps[0]), steps[1..])
  }

  ghost function After(w: World, steps: seq<Step>): World
    requires IsRun(w, steps)
    decreases |steps|
  {
    if steps == [] then w else After(Next(w, steps[0]), steps[1..])
  }

  function NewBrowser(token: Option<string>): World {
    World([], token, map[], [], None, [])
  }

  lemma {:induction false} RunKeepsInv(w: World, steps: seq<Step>)
    requires Inv(w) && IsRun(w, steps)
    ensures Inv(After(w, steps)) && Epoch(w) <= Epoch(After(w, steps)) && w.written <= After(w, steps).written
    decreases |steps|
  {
    if steps != [] {
      StepKeepsInv(w, steps[0]);
      RunKeepsInv(Next(w, steps[0]), steps[1..]);
    }
  }

  /** What an operation was asked for never changes. */
  ghost predicate SameRequests(w: World, u: World) {
    |w.ops| <= |u.ops| && forall id :: 0 <= id < |w.ops| ==>
      u.ops[id].epoch == w.ops[id].epoch && u.ops[id].kind == w.ops[id].kind
  }

  lemma StepKeepsRequests(w: World, s: Step)
    requires Enabled(w, s)
    ensures SameRequests(w, Next(w, s))
  {
  }

  lemma {:induction false} RunKeepsRequests(w: World, steps: seq<Step>)
    requires IsRun(w, steps)
    ensures SameRequests(w, After(w, steps))
    decreases |steps|
  {
    if steps != [] {
      StepKeepsRequests(w, steps[0]);
      RunKeepsRequests(Next(w, steps[0]), steps[1..]);
    }
  }

  lemma StepWrites(w: World, s: Step, k: nat)
    requires Enabled(w, s) && |w.written| <= k < |Next(w, s).written|
    ensures Next(w, s).written[k].1 == Epoch(w)
  {
  }

  lemma {:induction false} RunWrites(w: World, steps: seq<Step>, k: nat)
    requires Inv(w) && IsRun(w, steps) && |w.written| <= k < |After(w, steps).written|
    ensures After(w, steps).written[k].1 >= Epoch(w)
    decreases |steps|
  {
    var u := Next(w, steps[0]);
    StepKeepsInv(w, steps[0]);
    RunKeepsInv(u, steps[1..]);
    if k < |u.written| {
      StepWrites(w, steps[0], k);
    } else {
      RunWrites(u, steps[1..], k);
    }
  }

  // ----- what the invariant means -----

  /** Locked operations run one at a time, in all tabs together; within a tab they run in the
      order in which they were requested; and two refreshes of a tab that are both unfinished
      belong to different generations. */
  lemma LockedOneAtATime(w: World, steps: seq<Step>, a: nat, b: nat)
    requires Inv(w) && IsRun(w, steps)
    requires a < b < |After(w, steps).ops|
    ensures var v := After(w, steps);
            && !(v.ops[a].status == Posted && v.ops[b].status == Posted)
            && (v.ops[a].tab == v.ops[b].tab && v.ops[b].status == Posted ==> v.ops[a].status == Finished)
            && (v.ops[a].tab == v.ops[b].tab && Unfinished(v.ops[a]) && Unfinished(v.ops[b]) ==>
                  v.ops[a].generation != v.ops[b].generation)
  {
    RunKeepsInv(w, steps);
    var v := After(w, steps);
    assert QueueOk(v, v.ops[b].tab) && FlightOk(v, v.ops[b].tab);
    if v.ops[b].status == Posted {
      PostedIsFirst(v, b);
      assert v.ops[a].tab == v.ops[b].tab && v.ops[a].status != Finished ==> a in TabOf(v, v.ops[b].tab).queue;
    }
    SameEpoch(v, a);
    SameEpoch(v, b);
    assert EpochOk(v, v.ops[a]) && EpochOk(v, v.ops[b]);
  }

  /** A refresh stores a token only in the generation in which it was requested: after a
      logout, whatever stores a token was requested after that logout. */
  lemma NoLateRefresh(w: World, out: Step, steps: seq<Step>, k: nat)
    requires Inv(w) && Enabled(w, out) && (out.Logout? || out.ClearSession?)
    requires IsRun(Next(w, out), steps)
    requires |w.written| <= k < |After(Next(w, out), steps).written|
    ensures |w.ops| <= After(Next(w, out), steps).written[k].0
  {
    var u := Next(w, out);
    var v := After(u, steps);
    StepKeepsInv(w, out);
    StepKeepsRequests(w, out);
    RunKeepsInv(u, steps);
    RunKeepsRequests(u, steps);
    RunWrites(u, steps, k);
    var id := v.written[k].0;
    assert id < |w.ops| ==> EpochOk(w, w.ops[id]);
  }

  /** No step stores a token outright, and no token is answered to an operation from `n` on. */
  ghost predicate NoNewAnswer(steps: seq<Step>, n: nat) {
    forall i :: 0 <= i < |steps| ==>
      !steps[i].SaveToken? && (steps[i].Respond? && steps[i].answer.Some? ==> steps[i].id < n)
  }

  lemma {:induction false} OldAnswersStayOut(w: World, steps: seq<Step>, n: nat)
    requires Inv(w) && IsRun(w, steps) && NoNewAnswer(steps, n)
    requires w.token.None? && n <= |w.ops| && forall id :: 0 <= id < n ==> w.ops[id].epoch < Epoch(w)
    ensures After(w, steps).token.None?
    decreases |steps|
  {
    if steps != [] {
      var s := steps[0];
      var u := Next(w, s);
      StepKeepsInv(w, s);
      StepKeepsRequests(w, s);
      if s.Respond? && s.id < n {
        SameEpoch(w, s.id);
      }
      assert NoNewAnswer(steps[1..], n) by {
        assert forall i :: 0 <= i < |steps[1..]| ==> steps[1..][i] == steps[i + 1];
      }
      OldAnswersStayOut(u, steps[1..], n);
    }
  }

  /** After a logout, nothing that was requested before can bring the session back: not a
      refresh, not a login, in no tab and in no order, whatever else is requested, begun or
      refused meanwhile. Only a token that answers a later request can. */
  lemma LogoutIsFinal(w: World, out: Step, steps: seq<Step>)
    requires Inv(w) && Enabled(w, out) && (out.Logout? || out.ClearSession?)
    requires IsRun(Next(w, out), steps) && NoNewAnswer(steps, |w.ops|)
    ensures After(Next(w, out), steps).token.None?
  {
    StepKeepsInv(w, out);
    StepKeepsRequests(w, out);
    forall id | 0 <= id < |w.ops|
      ensures Next(w, out).ops[id].epoch < Epoch(Next(w, out))
    {
      assert EpochOk(w, w.ops[id]);
    }
    OldAnswersStayOut(Next(w, out), steps, |w.ops|);
  }

  lemma NewBrowserInv(token: Option<string>)
    ensures Inv(NewBrowser(token))
  {
  }
}
