/** One API request under the interceptors, while sessions come and go around it. */
module RequestRetry {
  import opened Wrappers
  import opened SessionProtocol

  /** `sentIn` are the epochs in which the request went out. */
  datatype Request = Request(
    isAuthentication: bool,
    generation: Option<string>,
    retried: bool,
    sentIn: seq<nat>,
    state: State)

  datatype State = Ready | Sent | AwaitingRefresh(generation: string) | Delivered(epoch: nat) | Rejected

  function NewRequest(isAuthentication: bool): Request {
    Request(isAuthentication, None, false, [], Ready)
  }

  /** Either something happens to the session, or to the request. */
  datatype Event =
    | Session(step: Step)
    | Send
    | Succeed
    | Fail(unauthorized: bool)
    | RefreshReturns
    | RefreshRaises(unauthorized: bool, tab: nat, uuid: string)

  ghost predicate Possible(w: World, r: Request, e: Event) {
    match e
    case Session(step) => Enabled(w, step)
    case Send => r.state.Ready?
    case Succeed => r.state.Sent?
    case Fail(_) => r.state.Sent?
    case RefreshReturns => r.state.AwaitingRefresh?
    case RefreshRaises(_, _, uuid) => r.state.AwaitingRefresh? && Fresh(w, uuid)
  }

  /** The request interceptor. */
  function SendRequest(w: World, r: Request): Request {
    if r.generation.Some? && r.generation.value != Current(w) then r.(state := Rejected)
    else r.(generation := Some(Current(w)), sentIn := r.sentIn + [Epoch(w)], state := Sent)
  }

  /** The response interceptor for a successful answer. */
  function Receive(w: World, r: Request): Request {
    if !r.isAuthentication && r.generation != Some(Current(w)) then r.(state := Rejected)
    else r.(state := Delivered(Epoch(w)))
  }

  /** The response interceptor for an error, up to the awaited refresh. */
  function ReceiveError(w: World, r: Request, unauthorized: bool): Request {
    if r.generation.Some? && r.generation.value != Current(w) then r.(state := Rejected)
    else if unauthorized && !r.retried && !r.isAuthentication then
      r.(retried := true, state := AwaitingRefresh(Current(w)))
    else r.(state := Rejected)
  }

  /** After the refresh: the request is sent again, unless the session changed meanwhile. */
  function Resend(w: World, r: Request): Request
    requires r.state.AwaitingRefresh?
  {
    if r.state.generation != Current(w) then r.(state := Rejected) else r.(state := Ready)
  }

  function NextRequest(w: World, r: Request, e: Event): Request
    requires e.RefreshReturns? ==> r.state.AwaitingRefresh?
  {
    match e
    case Session(_) => r
    case Send => SendRequest(w, r)
    case Succeed => Receive(w, r)
    case Fail(unauthorized) => ReceiveError(w, r, unauthorized)
    case RefreshReturns => Resend(w, r)
    case RefreshRaises(_, _, _) => r.(state := Rejected)
  }

  /** A refresh refused by the server ends the session, if it is still the same one. */
  ghost function NextWorld(w: World, r: Request, e: Event): World
    requires Possible(w, r, e)
  {
    match e
    case Session(step) => Next(w, step)
    case RefreshRaises(unauthorized, tab, uuid) =>
      if unauthorized && r.state.generation == Current(w) then Next(w, ClearSession(tab, uuid)) else w
    case _ => w
  }

  // ----- the invariant -----

  ghost predicate RequestOk(w: World, r: Request) {
    && |r.sentIn| <= (if r.retried && !r.state.AwaitingRefresh? then 2 else 1)
    && (r.state.AwaitingRefresh? ==> r.retried)
    && (r.state.Ready? ==> |r.sentIn| == if r.retried then 1 else 0)
    && (r.sentIn != [] <==> r.generation.Some?)
    && (r.state.Sent? || r.state.AwaitingRefresh? || r.state.Delivered? ==> r.sentIn != [])
    && (forall k :: 0 <= k < |r.sentIn| ==> r.sentIn[k] == r.sentIn[0] <= Epoch(w))
    && (r.sentIn != [] ==> r.generation.value == if r.sentIn[0] == 0 then "" else w.generations[r.sentIn[0] - 1])
    && (r.state.Delivered? && !r.isAuthentication ==> r.state.epoch == r.sentIn[0])
  }

  lemma StepExtendsGenerations(w: World, s: Step)
    requires Enabled(w, s)
    ensures w.generations <= Next(w, s).generations
  {
  }

  lemma SameGenerationSameEpoch(w: World, e: nat)
    requires GenerationsOk(w) && e <= Epoch(w)
    ensures (if e == 0 then "" else w.generations[e - 1]) == Current(w) <==> e == Epoch(w)
  {
  }

  lemma WorldKeepsInv(w: World, r: Request, e: Event)
    requires Inv(w) && Possible(w, r, e)
    ensures Inv(NextWorld(w, r, e)) && w.generations <= NextWorld(w, r, e).generations
  {
    match e
    case Session(step) =>
      StepKeepsInv(w, step);
      StepExtendsGenerations(w, step);
    case RefreshRaises(unauthorized, tab, uuid) =>
      if unauthorized && r.state.generation == Current(w) {
        StepKeepsInv(w, ClearSession(tab, uuid));
        StepExtendsGenerations(w, ClearSession(tab, uuid));
      }
    case _ =>
  }

  /** What holds of the request goes on to hold while generations are added. */
  lemma RequestOkExtends(w: World, u: World, r: Request)
    requires RequestOk(w, r) && w.generations <= u.generations
    ensures RequestOk(u, r)
  {
  }

  lemma RequestKeepsOk(w: World, r: Request, e: Event)
    requires GenerationsOk(w) && RequestOk(w, r) && Possible(w, r, e)
    ensures RequestOk(w, NextRequest(w, r, e))
  {
    if r.sentIn != [] {
      SameGenerationSameEpoch(w, r.sentIn[0]);
    }
  }

  lemma EventKeepsInv(w: World, r: Request, e: Event)
    requires Inv(w) && RequestOk(w, r) && Possible(w, r, e)
    ensures Inv(NextWorld(w, r, e)) && RequestOk(NextWorld(w, r, e), NextRequest(w, r, e))
  {
    WorldKeepsInv(w, r, e);
    RequestKeepsOk(w, r, e);
    RequestOkExtends(w, NextWorld(w, r, e), NextRequest(w, r, e));
  }

  ghost predicate IsHistory(w: World, r: Request, es: seq<Event>)
    decreases |es|
  {
    es != [] ==> Possible(w, r, es[0]) && IsHistory(NextWorld(w, r, es[0]), NextRequest(w, r, es[0]), es[1..])
  }

  ghost function RequestAfter(w: World, r: Request, es: seq<Event>): Request
    requires IsHistory(w, r, es)
    decreases |es|
  {
    if es == [] then r else RequestAfter(NextWorld(w, r, es[0]), NextRequest(w, r, es[0]), es[1..])
  }

  lemma {:induction false} HistoryKeepsOk(w: World, r: Request, es: seq<Event>)
    requires Inv(w) && RequestOk(w, r) && IsHistory(w, r, es)
    ensures var q := RequestAfter(w, r, es);
            && |q.sentIn| <= 2
            && (forall k :: 0 <= k < |q.sentIn| ==> q.sentIn[k] == q.sentIn[0])
            && (q.state.Delivered? && !q.isAuthentication ==> q.sentIn != [] && q.state.epoch == q.sentIn[0])
    decreases |es|
  {
    if es != [] {
      EventKeepsInv(w, r, es[0]);
      HistoryKeepsOk(NextWorld(w, r, es[0]), NextRequest(w, r, es[0]), es[1..]);
    }
  }

  /** Whatever happens to the session, a request goes out at most twice, both times in the
      same generation, and an answer is delivered only in that generation. */
  lemma RetriedOnceInItsGeneration(w: World, isAuthentication: bool, es: seq<Event>)
    requires Inv(w) && IsHistory(w, NewRequest(isAuthentication), es)
    ensures var q := RequestAfter(w, NewRequest(isAuthentication), es);
            && |q.sentIn| <= 2
            && (forall k :: 0 <= k < |q.sentIn| ==> q.sentIn[k] == q.sentIn[0])
            && (q.state.Delivered? && !isAuthentication ==> q.sentIn != [] && q.state.epoch == q.sentIn[0])
  {
    HistoryKeepsOk(w, NewRequest(isAuthentication), es);
    KeepsKind(w, NewRequest(isAuthentication), es);
  }

  lemma {:induction false} KeepsKind(w: World, r: Request, es: seq<Event>)
    requires IsHistory(w, r, es)
    ensures RequestAfter(w, r, es).isAuthentication == r.isAuthentication
    decreases |es|
  {
    if es != [] {
      KeepsKind(NextWorld(w, r, es[0]), NextRequest(w, r, es[0]), es[1..]);
    }
  }
}
