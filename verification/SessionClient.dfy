/** The session client: the shared storage keys, the tabs' module variables and the functions
    that change them, cut at their awaits. */
module SessionClient {
  import opened Wrappers
  import opened SessionProtocol
  import opened RequestRetry

  class Browser {
    var generation: string
    var token: Option<string>
    var tabs: map<nat, Tab>
    var ops: seq<Op>
    var lock: Option<nat>
    var generations: seq<string>  // history of `generation`, for the statements only
    ghost var written: seq<(nat, nat)>

    ghost function View(): World
      reads this
    {
      World(generations, token, tabs, ops, lock, written)
    }

    ghost predicate Valid()
      reads this
    {
      generation == Current(View()) && Inv(View())
    }

    constructor (stored: Option<string>)
      ensures Valid() && View() == NewBrowser(stored)
    {
      generation, token, tabs, ops, lock := "", stored, map[], [], None;
      generations, written := [], [];
    }

    method InvalidateSessionRequests(tab: nat, uuid: string)
      requires Valid() && Fresh(View(), uuid)
      modifies this`generation, this`generations, this`tabs
      ensures Valid() && View() == Invalidate(old(View()), tab, uuid)
    {
      InvalidateInv(View(), tab, uuid);
      generation := uuid;
      generations := generations + [uuid];
      tabs := tabs[tab := (if tab in tabs then tabs[tab] else Tab(None, [])).(inFlight := None)];
    }

    method SaveAccessToken(tab: nat, uuid: string, value: string)
      requires Valid() && Fresh(View(), uuid)
      modifies this
      ensures Valid() && View() == Next(old(View()), SaveToken(tab, uuid, value))
    {
      InvalidateSessionRequests(tab, uuid);
      SetTokenInv(View(), Some(value));
      token := Some(value);
    }

    method ClearStoredSession(tab: nat, uuid: string)
      requires Valid() && Fresh(View(), uuid)
      modifies this
      ensures Valid() && View() == Next(old(View()), ClearSession(tab, uuid))
    {
      InvalidateSessionRequests(tab, uuid);
      SetTokenInv(View(), None);
      token := None;
    }

    /** Chains an operation behind the tab's earlier ones. */
    method WithSessionLock(tab: nat, kind: Kind) returns (id: nat)
      requires Valid() && (kind.Refresh? ==> TabOf(View(), tab).inFlight.None?)
      modifies this`ops, this`tabs
      ensures Valid() && View() == Enqueue(old(View()), tab, kind) && id == |old(ops)|
    {
      EnqueueInv(View(), tab, kind);
      id := |ops|;
      var t := if tab in tabs then tabs[tab] else Tab(None, []);
      ops := ops + [Op(tab, kind, generation, |generations|, Queued)];
      tabs := tabs[tab := Tab(if kind.Refresh? then Some(id) else t.inFlight, t.queue + [id])];
    }

    /** Callers join the refresh in flight; otherwise a new one is queued. */
    method RefreshAccessToken(tab: nat) returns (id: nat)
      requires Valid()
      modifies this`ops, this`tabs
      ensures Valid() && View() == Next(old(View()), AskRefresh(tab))
      ensures id < |ops| && ops[id].kind.Refresh? && ops[id].tab == tab && ops[id].status != Finished
    {
      assert FlightOk(View(), tab);
      if tab in tabs && tabs[tab].inFlight.Some? {
        return tabs[tab].inFlight.value;
      }
      id := WithSessionLock(tab, Refresh(token));
    }

    method FinishOperation(id: nat)
      requires Valid() && CanFinish(View(), id)
      modifies this`ops, this`tabs, this`lock
      ensures Valid() && View() == Finish(old(View()), id)
    {
      FinishInv(View(), id);
      var op := ops[id];
      var t := if op.tab in tabs then tabs[op.tab] else Tab(None, []);
      ops := ops[id := op.(status := Finished)];
      lock := None;
      tabs := tabs[op.tab := Tab(if t.inFlight == Some(id) then None else t.inFlight,
                                 if t.queue == [] then [] else t.queue[1..])];
    }

    /** The operation gets its turn and the lock: what it does before its request. */
    method BeginOperation(id: nat)
      requires Valid() && Enabled(View(), Begin(id))
      modifies this`ops, this`tabs, this`lock
      ensures Valid() && View() == Next(old(View()), Begin(id))
    {
      var op := ops[id];
      var over := !op.kind.LogoutCall? && op.generation != generation;
      if op.kind.Refresh? && token.Some? && token.value != "" && token != op.kind.previous {
        over := true;
      }
      if over {
        FinishOperation(id);
      } else {
        PostInv(View(), id);
        lock := Some(id);
        ops := ops[id := op.(status := Posted)];
      }
    }

    /** What the operation does with the answer to its request. */
    method EndOperation(id: nat, answer: Option<string>, uuid: string)
      requires Valid() && Enabled(View(), Respond(id, answer, uuid))
      modifies this
      ensures Valid() && View() == Next(old(View()), Respond(id, answer, uuid))
    {
      var op := ops[id];
      RespondInv(View(), id, answer, uuid);
      PostedIsFirst(View(), id);
      FinishOperation(id);
      if answer.None? || op.kind.LogoutCall? || op.generation != generation {
        return;
      }
      if op.kind.Login? {
        InvalidateSessionRequests(op.tab, uuid);
      } else {
        written := written + [(id, |generations|)];
      }
      token := answer;
    }

    /** The request interceptor. */
    method Outgoing(r: Request) returns (q: Request)
      requires Valid() && r.state.Ready? && RequestOk(View(), r)
      ensures q == SendRequest(View(), r) && RequestOk(View(), q)
    {
      RequestKeepsOk(View(), r, Send);
      if r.generation.Some? && r.generation.value != generation {
        return r.(state := Rejected);
      }
      q := r.(generation := Some(generation), sentIn := r.sentIn + [|generations|], state := Sent);
    }
  }
}
