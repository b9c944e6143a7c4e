/** What each step of the session protocol does to the stored session, and that refreshes and
    retries come to their end: an answer in the current generation is stored and delivered. */
module SessionProgress {
  import opened Wrappers
  import opened SessionProtocol
  import opened RequestRetry

  // ----- locked operations -----

  /** The operation has ended: its tab's queue goes on, the lock is free, nobody joins it. */
  ghost predicate Ended(w: World, u: World, id: nat)
    requires id < |w.ops|
  {
    var tab := w.ops[id].tab;
    && |u.ops| == |w.ops| && u.ops[id].status == Finished && u.lock.None?
    && (forall k :: 0 <= k < |w.ops| && k != id ==> u.ops[k] == w.ops[k])
    && TabOf(u, tab).inFlight != Some(id)
    && (TabOf(w, tab).queue != [] ==> TabOf(u, tab).queue == TabOf(w, tab).queue[1..])
    && (forall t :: t != tab ==> TabOf(u, t) == TabOf(w, t))
  }

  /** A token that answers a refresh of the current generation is stored; the generation stays. */
  lemma RefreshAnswerStored(w: World, id: nat, token: string, uuid: string)
    requires Enabled(w, Respond(id, Some(token), uuid)) && w.ops[id].kind.Refresh? && w.ops[id].generation == Current(w)
    ensures var u := Next(w, Respond(id, Some(token), uuid));
            && u.token == Some(token) && u.generations == w.generations && Ended(w, u, id)
            && u.written == w.written + [(id, Epoch(w))]
  {
  }

  /** A token that answers a login of the current generation is stored, in a new generation. */
  lemma LoginAnswerStored(w: World, id: nat, token: string, uuid: string)
    requires Enabled(w, Respond(id, Some(token), uuid)) && w.ops[id].kind.Login? && w.ops[id].generation == Current(w)
    ensures var u := Next(w, Respond(id, Some(token), uuid));
            u.token == Some(token) && u.generations == w.generations + [uuid] && Ended(w, u, id)
  {
  }

  /** Any other answer leaves the session alone. */
  lemma OtherAnswerIgnored(w: World, id: nat, answer: Option<string>, uuid: string)
    requires Enabled(w, Respond(id, answer, uuid))
    requires answer.None? || w.ops[id].kind.LogoutCall? || w.ops[id].generation != Current(w)
    ensures var u := Next(w, Respond(id, answer, uuid));
            u.token == w.token && u.generations == w.generations && u.written == w.written && Ended(w, u, id)
  {
  }

  /** An operation whose turn has come sends its request, unless its generation is over or a
      refresh finds that another tab has renewed the token; a logout always does. */
  lemma BeginMeaning(w: World, id: nat)
    requires Enabled(w, Begin(id))
    ensures var u, op := Next(w, Begin(id)), w.ops[id];
            var over :=
              || (!op.kind.LogoutCall? && op.generation != Current(w))
              || (op.kind.Refresh? && w.token.Some? && w.token.value != "" && w.token != op.kind.previous);
            && u.token == w.token && u.generations == w.generations
            && (over ==> Ended(w, u, id))
            && (!over ==> u.lock == Some(id) && u.ops == w.ops[id := op.(status := Posted)] && u.tabs == w.tabs)
  {
  }

  /** The operation is queued in its tab for the current generation. */
  ghost predicate QueuedLast(w: World, u: World, tab: nat, kind: Kind) {
    && |u.ops| == |w.ops| + 1 && u.ops[..|w.ops|] == w.ops
    && u.ops[|w.ops|].tab == tab && u.ops[|w.ops|].kind == kind && u.ops[|w.ops|].status == Queued
    && u.ops[|w.ops|].generation == Current(u)
    && TabOf(u, tab).queue == TabOf(w, tab).queue + [|w.ops|] && u.lock == w.lock
    && (forall t :: t != tab ==> TabOf(u, t) == TabOf(w, t))
  }

  lemma AskMeaning(w: World, tab: nat)
    ensures var u := Next(w, AskRefresh(tab));
            && (TabOf(w, tab).inFlight.Some? ==> u == w)
            && (TabOf(w, tab).inFlight.None? ==>
                  && QueuedLast(w, u, tab, Refresh(w.token)) && TabOf(u, tab).inFlight == Some(|w.ops|)
                  && u.token == w.token && u.generations == w.generations)
  {
  }

  /** A new generation begins; the tab's refresh in flight is not joined any more. */
  ghost predicate NewGeneration(w: World, u: World, tab: nat, uuid: string) {
    u.generations == w.generations + [uuid] && TabOf(u, tab).inFlight.None?
  }

  lemma SessionStepsMeaning(w: World, tab: nat, uuid: string, token: string)
    ensures var u := Next(w, AskLogin(tab, uuid));
            NewGeneration(w, u, tab, uuid) && QueuedLast(w, u, tab, Login) && u.token == w.token
    ensures var u := Next(w, Logout(tab, uuid));
            NewGeneration(w, u, tab, uuid) && QueuedLast(w, u, tab, LogoutCall) && u.token.None?
    ensures var u := Next(w, SaveToken(tab, uuid, token));
            NewGeneration(w, u, tab, uuid) && u.ops == w.ops && u.lock == w.lock && u.token == Some(token)
    ensures var u := Next(w, ClearSession(tab, uuid));
            NewGeneration(w, u, tab, uuid) && u.ops == w.ops && u.lock == w.lock && u.token.None?
  {
  }

  lemma One(w: World, a: Step)
    requires Enabled(w, a)
    ensures IsRun(w, [a]) && After(w, [a]) == Next(w, a)
  {
    assert [a][1..] == [];
  }

  lemma Two(w: World, a: Step, b: Step)
    requires Enabled(w, a) && Enabled(Next(w, a), b)
    ensures IsRun(w, [a, b]) && After(w, [a, b]) == Next(Next(w, a), b)
  {
    assert [a, b][1..] == [b];
    One(Next(w, a), b);
  }

  lemma Three(w: World, a: Step, b: Step, c: Step)
    requires Enabled(w, a) && Enabled(Next(w, a), b) && Enabled(Next(Next(w, a), b), c)
    ensures IsRun(w, [a, b, c]) && After(w, [a, b, c]) == Next(Next(Next(w, a), b), c)
  {
    assert [a, b, c][1..] == [b, c];
    Two(Next(w, a), b, c);
  }

  /** A refresh that an idle tab asks for, and that the server answers, renews the token. */
  lemma RefreshRenews(w: World, tab: nat, token: string, uuid: string)
    requires TabOf(w, tab).inFlight.None? && TabOf(w, tab).queue == [] && w.lock.None? && Fresh(w, uuid)
    ensures var id := |w.ops|;
            var steps := [AskRefresh(tab), Begin(id), Respond(id, Some(token), uuid)];
            && IsRun(w, steps) && After(w, steps).token == Some(token)
            && After(w, steps).generations == w.generations && After(w, steps).lock.None?
  {
    var id := |w.ops|;
    AskMeaning(w, tab);
    var u := Next(w, AskRefresh(tab));
    BeginMeaning(u, id);
    var v := Next(u, Begin(id));
    RefreshAnswerStored(v, id, token, uuid);
    Three(w, AskRefresh(tab), Begin(id), Respond(id, Some(token), uuid));
  }

  // ----- a request -----

  /** In one generation: a request goes out in it; its answer is delivered; a first refusal makes
      it wait for a refresh, after which it is ready to go out again; a second one rejects it. */
  lemma RequestMeaning(w: World, r: Request)
    ensures r.generation.None? || r.generation.value == Current(w) ==>
              && NextRequest(w, r, Send).state == Sent && NextRequest(w, r, Send).generation == Some(Current(w))
              && NextRequest(w, r, Send).sentIn == r.sentIn + [Epoch(w)]
    ensures r.generation.Some? && r.generation.value != Current(w) ==>
              && NextRequest(w, r, Send).state == Rejected && NextRequest(w, r, Send).sentIn == r.sentIn
              && NextRequest(w, r, Fail(true)).state == Rejected && NextRequest(w, r, Fail(false)).state == Rejected
              && (!r.isAuthentication ==> NextRequest(w, r, Succeed).state == Rejected)
    ensures r.generation == Some(Current(w)) ==>
              && NextRequest(w, r, Succeed).state == Delivered(Epoch(w))
              && NextRequest(w, r, Fail(false)).state == Rejected
              && (r.retried || r.isAuthentication ==> NextRequest(w, r, Fail(true)).state == Rejected)
              && (!r.retried && !r.isAuthentication ==>
                    NextRequest(w, r, Fail(true)).state == AwaitingRefresh(Current(w))
                        && NextRequest(w, r, Fail(true)).retried)
    ensures r.state.AwaitingRefresh? ==>
              NextRequest(w, r, RefreshReturns).state == if r.state.generation == Current(w) then Ready else Rejected
  {
  }

  /** A refusal of the refresh itself ends the session, if it is still the same one; any other
      failure of the refresh leaves the session alone. The request is rejected. */
  lemma RefusedRefresh(w: World, r: Request, unauthorized: bool, tab: nat, uuid: string)
    requires Possible(w, r, RefreshRaises(unauthorized, tab, uuid))
    ensures var u := NextWorld(w, r, RefreshRaises(unauthorized, tab, uuid));
            if unauthorized && r.state.generation == Current(w) then u.token.None? && NewGeneration(w, u, tab, uuid)
            else u == w
    ensures NextRequest(w, r, RefreshRaises(unauthorized, tab, uuid)).state == Rejected
  {
    SessionStepsMeaning(w, tab, uuid, "");
  }

  /** While the generation stays: a request that is refused once is sent again after the refresh,
      and its answer is delivered. */
  lemma RefusedThenDelivered(w: World)
    ensures var sent := NextRequest(w, NewRequest(false), Send);
            var waiting := NextRequest(w, sent, Fail(true));
            && waiting.state.AwaitingRefresh?
            && var again := NextRequest(w, NextRequest(w, waiting, RefreshReturns), Send);
               && again.state.Sent? && NextRequest(w, again, Succeed).state == Delivered(Epoch(w))
               && NextRequest(w, again, Succeed).sentIn == [Epoch(w), Epoch(w)]
               && NextRequest(w, again, Fail(true)).state == Rejected
  {
  }
}
