/** What the real-time server does, said of its dictionaries: who is selected, who is served
    and what is displayed; and that nothing is left undone. */
module RealtimeDelivery {
  import opened Wrappers
  import opened RealtimeRooms
  import opened RealtimeServer

  // ----- single steps -----

  ghost predicate SameElsewhere<T(!new)>(a: map<string, T>, b: map<string, T>, sid: string) {
    forall s :: s != sid ==> (s in a <==> s in b) && (s in a ==> b[s] == a[s])
  }

  /** A step that leaves every other connection's entries as they were. */
  ghost predicate OnlyAbout(w: World, u: World, sid: string) {
    && SameElsewhere(w.connected, u.connected, sid) && SameElsewhere(w.displayed, u.displayed, sid)
    && SameElsewhere(w.requests, u.requests, sid) && SameElsewhere(w.subscriptions, u.subscriptions, sid)
    && SameElsewhere(w.joined, u.joined, sid) && u.emissions == w.emissions && u.deliveries == w.deliveries
  }

  lemma ConnectMeaning(w: World, sid: string, identity: Identity, events: Option<set<string>>)
    requires Enabled(w, Connect(sid, identity, events))
    ensures var u := Next(w, Connect(sid, identity, events));
            && OnlyAbout(w, u, sid) && sid in u.connected && u.connected[sid] == identity
            && sid !in u.displayed && sid !in u.requests
            && (events.None? ==> sid !in u.subscriptions)
            && (events.Some? ==> sid in u.subscriptions && u.subscriptions[sid] == events.value)
  {
  }

  lemma DisconnectMeaning(w: World, sid: string)
    ensures var u := Next(w, Disconnect(sid));
            && OnlyAbout(w, u, sid) && sid !in u.connected && sid !in u.displayed && sid !in u.requests
            && sid !in u.subscriptions && sid !in u.joined
  {
  }

  lemma SubscribeMeaning(w: World, sid: string, events: set<string>)
    ensures var u := Next(w, Subscribe(sid, events));
            OnlyAbout(w, u, sid) && sid in u.subscriptions && u.subscriptions[sid] == events
                && u.connected == w.connected
  {
  }

  lemma HideMeaning(w: World, sid: string)
    ensures var u := Next(w, HideRoom(sid));
            && OnlyAbout(w, u, sid) && sid !in u.displayed && sid !in u.requests
            && u.connected == w.connected && u.subscriptions == w.subscriptions && u.joined == w.joined
  {
  }

  lemma AskMeaning(w: World, sid: string, room: string)
    ensures var u := Next(w, AskDisplay(sid, room));
            && OnlyAbout(w, u, sid) && sid !in u.displayed && u.connected == w.connected
            && |u.checks| == |w.checks| + 1 && u.checks[..|w.checks|] == w.checks
            && sid in u.requests && u.requests[sid] == |w.checks|
            && u.checks[|w.checks|].sid == sid && u.checks[|w.checks|].room == room
            && (u.checks[|w.checks|].identity.Some? <==> sid in w.connected)
  {
  }

  lemma MembershipMeaning(w: World, sid: string, room: string, other: string)
    ensures var u := Next(w, Join(sid, room));
            InRoom(u, sid, room) && (other != room ==> (InRoom(u, sid, other) <==> InRoom(w, sid, other)))
            && OnlyAbout(w, u, sid)
    ensures var u := Next(w, Leave(sid, room));
            !InRoom(u, sid, room) && (other != room ==> (InRoom(u, sid, other) <==> InRoom(w, sid, other)))
            && OnlyAbout(w, u, sid)
  {
  }

  /** An event concerns exactly the live connections that subscribed to it or declared nothing,
      and that display or joined its room where it asks for one; in the order of the connections. */
  lemma {:induction false} SelectMeaning(w: World, order: seq<string>, e: Emission, sid: string, identity: Identity)
    ensures (sid, identity) in Select(w, order, e) <==>
              && sid in order && sid in w.connected && w.connected[sid] == identity
              && (sid in w.subscriptions ==> e.event in w.subscriptions[sid])
              && (e.displayedRoom.Some? ==> sid in w.displayed && w.displayed[sid] == e.displayedRoom.value)
              && (e.joinedRoom.Some? ==> sid in w.joined && e.joinedRoom.value in w.joined[sid])
    decreases |order|
  {
    if order != [] {
      SelectMeaning(w, order[..|order| - 1], e, sid, identity);
      assert order == order[..|order| - 1] + [order[|order| - 1]];
    }
  }

  // ----- each approved connection has one turn -----

  ghost predicate DistinctSids(pairs: seq<(string, Identity)>) {
    forall i, j :: 0 <= i < j < |pairs| ==> pairs[i].0 != pairs[j].0
  }

  /** No connection is concerned twice, and only checked ones are approved, each once. */
  ghost predicate OnceEach(e: Emission) {
    && DistinctSids(Concerned(e)) && DistinctSids(e.approved)
    && (forall i :: 0 <= i < |e.approved| ==> e.approved[i] in e.checked)
  }

  ghost predicate AllOnce(w: World) {
    forall i :: 0 <= i < |w.emissions| ==> OnceEach(w.emissions[i])
  }

  lemma {:induction false} SelectOnce(w: World, order: seq<string>, e: Emission)
    requires forall i, j :: 0 <= i < j < |order| ==> order[i] != order[j]
    ensures DistinctSids(Select(w, order, e))
    ensures forall p :: p in Select(w, order, e) ==> p.0 in order
    decreases |order|
  {
    if order != [] {
      SelectOnce(w, order[..|order| - 1], e);
    }
  }

  lemma CheckedOnce(e: Emission, valid: bool, allowed: bool)
    requires OnceEach(e) && e.selected != []
    ensures OnceEach(Checked(e, valid, allowed))
  {
    CheckedConcerned(e, valid, allowed);
    var f := Checked(e, valid, allowed);
    assert forall p :: p in e.checked ==> p in f.checked;
    var n := |e.checked|;
    assert forall i :: 0 <= i < n ==> e.checked[i] == Concerned(e)[i] && Concerned(e)[i].0 != Concerned(e)[n].0;
  }

  lemma StepKeepsOnce(w: World, s: Step)
    requires AllOnce(w) && Enabled(w, s)
    ensures AllOnce(Next(w, s))
  {
    match s
    case Connect(_, _, _) =>
    case Disconnect(_) =>
    case BeginEmit(event, displayed, joined, order) => SelectOnce(w, order, Offer(event, displayed, joined));
    case EndDisplay(check, verdict) => EndFrame(w, check, verdict);
    case CheckNext(id, valid, allowed) =>
      CheckFrame(w, id, valid, allowed);
      CheckedOnce(w.emissions[id], valid, allowed);
    case SendNext(id) =>
      ServeFrame(w, id);
      assert OnceEach(w.emissions[id]);
    case _ => RoomFrame(w, s);
  }

  lemma {:induction false} RunKeepsOnce(w: World, steps: seq<Step>)
    requires AllOnce(w) && IsRun(w, steps)
    ensures AllOnce(After(w, steps))
    decreases |steps|
  {
    if steps != [] {
      StepKeepsOnce(w, steps[0]);
      RunKeepsOnce(Next(w, steps[0]), steps[1..]);
    }
  }

  /** In every run: those that had their turn and then those still to be served are the approved
      connections, in order and each once. */
  lemma EachServedOnce(steps: seq<Step>, id: nat)
    requires IsRun(EMPTY_SERVER, steps) && id < |After(EMPTY_SERVER, steps).emissions|
    ensures var e := After(EMPTY_SERVER, steps).emissions[id];
            && |e.served| + |e.recipients| == |e.approved|
            && (forall i :: 0 <= i < |e.served| ==> e.served[i].0 == e.approved[i].0)
            && (forall i :: 0 <= i < |e.recipients| ==> e.recipients[i] == e.approved[|e.served| + i].0)
            && (forall i, j :: 0 <= i < j < |e.approved| ==> e.approved[i].0 != e.approved[j].0)
  {
    RunKeepsInv(EMPTY_SERVER, steps);
    RunKeepsOnce(EMPTY_SERVER, steps);
    var w := After(EMPTY_SERVER, steps);
    assert EmissionOk(w, w.emissions[id]) && OnceEach(w.emissions[id]);
  }

  // ----- nothing is left undelivered -----

  lemma {:induction false} RunFront(w: World, steps: seq<Step>)
    requires IsRun(w, steps) && steps != []
    ensures var n := |steps| - 1;
            && IsRun(w, steps[..n]) && Enabled(After(w, steps[..n]), steps[n])
            && After(w, steps) == Next(After(w, steps[..n]), steps[n])
    decreases |steps|
  {
    var n := |steps| - 1;
    if n > 0 {
      RunFront(Next(w, steps[0]), steps[1..]);
      assert steps[..n][1..] == steps[1..][..n - 1];
    }
  }

  /** The event of emission `id` was sent to the connection. */
  ghost predicate Delivered(w: World, id: nat, sid: string) {
    exists i :: 0 <= i < |w.deliveries| && w.deliveries[i].emission == id && w.deliveries[i].sid == sid
  }

  /** The `j`-th step of the run was the connection's turn, and it did not want the event: it was
      gone, not subscribed, or not in the room that the event asks for. */
  ghost predicate PassedOver(steps: seq<Step>, j: int, id: nat, sid: string) {
    && 0 <= j < |steps| && steps[j] == SendNext(id) && IsRun(EMPTY_SERVER, steps[..j])
    && var w := After(EMPTY_SERVER, steps[..j]);
       && id < |w.emissions| && w.emissions[id].recipients != [] && w.emissions[id].recipients[0] == sid
       && !Wanted(w, sid, w.emissions[id])
  }

  ghost predicate TurnTaken(steps: seq<Step>, w: World, id: nat, sid: string, sent: bool) {
    if sent then Delivered(w, id, sid) else exists j :: PassedOver(steps, j, id, sid)
  }

  lemma TurnRemains(steps: seq<Step>, id: nat, sid: string, sent: bool)
    requires IsRun(EMPTY_SERVER, steps) && steps != [] && IsRun(EMPTY_SERVER, steps[..|steps| - 1])
    requires Enabled(After(EMPTY_SERVER, steps[..|steps| - 1]), steps[|steps| - 1])
    requires TurnTaken(steps[..|steps| - 1], After(EMPTY_SERVER, steps[..|steps| - 1]), id, sid, sent)
    ensures TurnTaken(steps, Next(After(EMPTY_SERVER, steps[..|steps| - 1]), steps[|steps| - 1]), id, sid, sent)
  {
    var n := |steps| - 1;
    if sent {
      DeliveriesGrow(After(EMPTY_SERVER, steps[..n]), steps[n], id, sid);
    } else {
      var j :| PassedOver(steps[..n], j, id, sid);
      assert steps[..n][..j] == steps[..j];
      assert PassedOver(steps, j, id, sid);
    }
  }

  lemma DeliveriesGrow(w: World, s: Step, id: nat, sid: string)
    requires Enabled(w, s) && Delivered(w, id, sid)
    ensures Delivered(Next(w, s), id, sid)
  {
    var i :| 0 <= i < |w.deliveries| && w.deliveries[i].emission == id && w.deliveries[i].sid == sid;
    DeliveriesAfter(w, s);
    assert Next(w, s).deliveries[i] == w.deliveries[i];
  }

  /** Deliveries are only ever added, one at a time. */
  lemma DeliveriesAfter(w: World, s: Step)
    requires Enabled(w, s)
    ensures w.deliveries <= Next(w, s).deliveries
  {
    match s
    case Connect(_, _, _) =>
    case Disconnect(_) =>
    case BeginEmit(_, _, _, _) =>
    case EndDisplay(_, _) =>
    case CheckNext(_, _, _) =>
    case SendNext(_) =>
    case _ =>
  }

  /** What a turn adds. */
  lemma ServeMeaning(w: World, id: nat)
    requires Enabled(w, SendNext(id))
    ensures var u, e := Next(w, SendNext(id)), w.emissions[id];
            var sid := e.recipients[0];
            && u.emissions[id].served == e.served + [(sid, Wanted(w, sid, e))]
            && u.emissions[id].recipients == e.recipients[1..]
            && (Wanted(w, sid, e) ==> u.deliveries == w.deliveries + [Delivery(id, sid, w.connected[sid])])
            && (!Wanted(w, sid, e) ==> u.deliveries == w.deliveries)
  {
    ServeFrame(w, id);
  }

  lemma NewTurn(steps: seq<Step>, id: nat)
    requires IsRun(EMPTY_SERVER, steps) && steps != [] && IsRun(EMPTY_SERVER, steps[..|steps| - 1])
    requires steps[|steps| - 1] == SendNext(id) && Enabled(After(EMPTY_SERVER, steps[..|steps| - 1]), SendNext(id))
    ensures var w := After(EMPTY_SERVER, steps[..|steps| - 1]);
            var sid := w.emissions[id].recipients[0];
            TurnTaken(steps, Next(w, SendNext(id)), id, sid, Wanted(w, sid, w.emissions[id]))
  {
    var n := |steps| - 1;
    var w := After(EMPTY_SERVER, steps[..n]);
    var sid := w.emissions[id].recipients[0];
    ServeMeaning(w, id);
    if Wanted(w, sid, w.emissions[id]) {
      assert Next(w, SendNext(id)).deliveries[|w.deliveries|] == Delivery(id, sid, w.connected[sid]);
    } else {
      assert PassedOver(steps, n, id, sid);
    }
  }

  lemma ServedBefore(w: World, s: Step, id: nat, i: nat)
    requires Enabled(w, s) && id < |Next(w, s).emissions| && i < |Next(w, s).emissions[id].served|
    requires !(s == SendNext(id) && i == |w.emissions[id].served|)
    ensures id < |w.emissions| && i < |w.emissions[id].served|
    ensures Next(w, s).emissions[id].served[i] == w.emissions[id].served[i]
  {
    match s
    case Connect(_, _, _) =>
    case Disconnect(_) =>
    case BeginEmit(_, _, _, _) =>
    case EndDisplay(check, verdict) => EndFrame(w, check, verdict);
    case CheckNext(other, valid, allowed) =>
      CheckFrame(w, other, valid, allowed);
      CheckedConcerned(w.emissions[other], valid, allowed);
    case SendNext(other) => ServeFrame(w, other);
    case _ => RoomFrame(w, s);
  }

  lemma {:induction false} TurnsTaken(steps: seq<Step>, id: nat, i: nat)
    requires IsRun(EMPTY_SERVER, steps) && id < |After(EMPTY_SERVER, steps).emissions|
    requires i < |After(EMPTY_SERVER, steps).emissions[id].served|
    ensures var w := After(EMPTY_SERVER, steps);
            TurnTaken(steps, w, id, w.emissions[id].served[i].0, w.emissions[id].served[i].1)
    decreases |steps|
  {
    var n := |steps| - 1;
    RunFront(EMPTY_SERVER, steps);
    var w := After(EMPTY_SERVER, steps[..n]);
    var s := steps[n];
    if s == SendNext(id) && i == |w.emissions[id].served| {
      NewTurn(steps, id);
      ServeMeaning(w, id);
    } else {
      ServedBefore(w, s, id, i);
      TurnsTaken(steps[..n], id, i);
      TurnRemains(steps, id, w.emissions[id].served[i].0, w.emissions[id].served[i].1);
    }
  }

  /** In every run: when an emission is through, each approved connection was sent the event, or
      did not want it when its turn came. */
  lemma AllServed(steps: seq<Step>, id: nat, i: nat)
    requires IsRun(EMPTY_SERVER, steps) && id < |After(EMPTY_SERVER, steps).emissions|
    requires var e := After(EMPTY_SERVER, steps).emissions[id]; e.recipients == [] && i < |e.approved|
    ensures var w := After(EMPTY_SERVER, steps);
            var sid := w.emissions[id].approved[i].0;
            Delivered(w, id, sid) || exists j :: PassedOver(steps, j, id, sid)
  {
    EachServedOnce(steps, id);
    TurnsTaken(steps, id, i);
  }

  // ----- whoever is entitled is served -----

  /** The `n`-th step of the run begins emission `id`. */
  ghost predicate Begins(steps: seq<Step>, n: nat, id: nat) {
    && n < |steps| && IsRun(EMPTY_SERVER, steps) && IsRun(EMPTY_SERVER, steps[..n])
    && steps[n].BeginEmit? && Enabled(After(EMPTY_SERVER, steps[..n]), steps[n])
    && id == |After(EMPTY_SERVER, steps[..n]).emissions|
  }

  /** What a new emission is about. */
  lemma BeginMeaning(w: World, event: string, displayed: Option<string>, joined: Option<string>, order: seq<string>)
    ensures var u, n := Next(w, BeginEmit(event, displayed, joined, order)), |w.emissions|;
            && |u.emissions| == n + 1 && u.emissions[..n] == w.emissions && u == w.(emissions := u.emissions)
            && u.emissions[n].event == event && u.emissions[n].displayedRoom == displayed
            && u.emissions[n].joinedRoom == joined
            && u.emissions[n].selected == Select(w, order, u.emissions[n])
            && u.emissions[n].validTokens == map[] && u.emissions[n].permissions == map[]
            && u.emissions[n].checked == [] && u.emissions[n].approved == [] && u.emissions[n].recipients == []
            && u.emissions[n].served == []
  {
    var e := Offer(event, displayed, joined);
    SelectLike(w, order, e, e.(selected := Select(w, order, e)));
  }

  /** The selection depends on the event and its rooms alone. */
  lemma {:induction false} SelectLike(w: World, order: seq<string>, e: Emission, f: Emission)
    requires e.event == f.event && e.displayedRoom == f.displayedRoom && e.joinedRoom == f.joinedRoom
    ensures Select(w, order, e) == Select(w, order, f)
    decreases |order|
  {
    if order != [] {
      SelectLike(w, order[..|order| - 1], e, f);
    }
  }

  /** No step changes whom an emission concerns. */
  lemma ConcernedStays(w: World, s: Step, id: nat)
    requires Enabled(w, s) && id < |w.emissions|
    ensures id < |Next(w, s).emissions| && Concerned(Next(w, s).emissions[id]) == Concerned(w.emissions[id])
  {
    if s.CheckNext? && s.emission == id {
      CheckFrame(w, id, s.valid, s.allowed);
      CheckedConcerned(w.emissions[id], s.valid, s.allowed);
    } else {
      OtherStepChecks(w, s, id);
    }
  }

  /** Throughout a run an emission concerns exactly the connections that wanted it when it began. */
  lemma {:induction false} ConcernsTheSelected(steps: seq<Step>, n: nat, id: nat)
    requires Begins(steps, n, id)
    ensures var w, s := After(EMPTY_SERVER, steps[..n]), steps[n];
            && id < |After(EMPTY_SERVER, steps).emissions|
            && Concerned(After(EMPTY_SERVER, steps).emissions[id])
               == Select(w, s.order, Offer(s.event, s.displayedRoom, s.joinedRoom))
    decreases |steps|
  {
    var last := |steps| - 1;
    RunFront(EMPTY_SERVER, steps);
    if n < last {
      assert steps[..last][..n] == steps[..n] && steps[..last][n] == steps[n];
      assert Begins(steps[..last], n, id);
      ConcernsTheSelected(steps[..last], n, id);
      ConcernedStays(After(EMPTY_SERVER, steps[..last]), steps[last], id);
    }
  }

  /** The connection is alive with this identity, and wants the event. */
  ghost predicate WantsAs(w: World, s: Step, sid: string, identity: Identity)
    requires s.BeginEmit?
  {
    && sid in w.connected && w.connected[sid] == identity
    && (sid in w.subscriptions ==> s.event in w.subscriptions[sid])
    && (s.displayedRoom.Some? ==> sid in w.displayed && w.displayed[sid] == s.displayedRoom.value)
    && (s.joinedRoom.Some? ==> sid in w.joined && s.joinedRoom.value in w.joined[sid])
  }

  /** In every run whose lookups follow one set of rules: when an emission has checked everyone,
      the approved connections are exactly those that wanted the event when it began and whose
      session is valid and permitted. */
  lemma EntitledIsApproved(auth: string -> (int, Option<int>), rules: Rules, steps: seq<Step>, n: nat, id: nat,
                           sid: string, identity: Identity)
    requires Begins(steps, n, id) && SignedSteps(auth, steps) && AnsweredBy(rules, EMPTY_SERVER, steps, id)
    requires id < |After(EMPTY_SERVER, steps).emissions| && After(EMPTY_SERVER, steps).emissions[id].selected == []
    ensures (sid, identity) in After(EMPTY_SERVER, steps).emissions[id].approved <==>
              && WantsAs(After(EMPTY_SERVER, steps[..n]), steps[n], sid, identity)
              && rules.valid(identity) && rules.allowed(identity.userId, identity.roleId)
  {
    var w, s, e := After(EMPTY_SERVER, steps[..n]), steps[n], After(EMPTY_SERVER, steps).emissions[id];
    ConcernsTheSelected(steps, n, id);
    CachedIsUncached(auth, rules, steps, id);
    assert e.checked == Concerned(e);
    ApprovedMeaning(rules, e.checked, (sid, identity));
    SelectMeaning(w, s.order, Offer(s.event, s.displayedRoom, s.joinedRoom), sid, identity);
  }

  /** When such an emission is through, each of them was sent the event, or did not want it any
      more when its turn came. */
  lemma EntitledIsServed(auth: string -> (int, Option<int>), rules: Rules, steps: seq<Step>, n: nat, id: nat,
                         sid: string, identity: Identity)
    requires Begins(steps, n, id) && SignedSteps(auth, steps) && AnsweredBy(rules, EMPTY_SERVER, steps, id)
    requires id < |After(EMPTY_SERVER, steps).emissions|
    requires var e := After(EMPTY_SERVER, steps).emissions[id]; e.selected == [] && e.recipients == []
    requires WantsAs(After(EMPTY_SERVER, steps[..n]), steps[n], sid, identity)
    requires rules.valid(identity) && rules.allowed(identity.userId, identity.roleId)
    ensures Delivered(After(EMPTY_SERVER, steps), id, sid) || exists j :: PassedOver(steps, j, id, sid)
  {
    EntitledIsApproved(auth, rules, steps, n, id, sid, identity);
    var e := After(EMPTY_SERVER, steps).emissions[id];
    var i :| 0 <= i < |e.approved| && e.approved[i] == (sid, identity);
    AllServed(steps, id, i);
  }

  // ----- a positive verdict shows the room -----

  /** A positive verdict on the request that is still the latest one of a connection that was
      alive when it asked. */
  lemma VerdictShows(w: World, check: nat)
    requires check < |w.checks| && w.checks[check].identity.Some?
    requires w.checks[check].sid in w.requests && w.requests[w.checks[check].sid] == check
    ensures var c, u := w.checks[check], Next(w, EndDisplay(check, true));
            c.sid in u.displayed && u.displayed[c.sid] == c.room && c.sid !in u.requests && OnlyAbout(w, u, c.sid)
  {
  }

  /** A negative verdict, or one that a newer request or a disconnection has superseded, shows
      nothing. */
  lemma NoVerdictNoRoom(w: World, check: nat, verdict: bool)
    requires check < |w.checks|
    requires var c := w.checks[check];
             !verdict || c.sid !in w.requests || w.requests[c.sid] != check
    ensures Next(w, EndDisplay(check, verdict)).displayed == w.displayed
  {
  }

  /** The step neither asks for another room, hides, reconnects or drops the connection, nor ends
      the lookup of this request. */
  ghost predicate LeavesRequest(w: World, s: Step, sid: string, check: nat)
    requires Enabled(w, s)
  {
    match s
    case Connect(other, _, _) => other != sid
    case Disconnect(other) => other != sid
    case HideRoom(other) => other != sid
    case AskDisplay(other, _) => other != sid
    case EndDisplay(other, _) => other != check
    case CheckNext(id, valid, _) => w.emissions[id].selected[0].0 == sid ==> !Expired(w.emissions[id], valid)
    case _ => true
  }

  ghost predicate AllLeaveRequest(w: World, steps: seq<Step>, sid: string, check: nat)
    requires IsRun(w, steps)
    decreases |steps|
  {
    steps != [] ==> LeavesRequest(w, steps[0], sid, check) && AllLeaveRequest(Next(w, steps[0]), steps[1..], sid, check)
  }

  ghost predicate Asked(w: World, sid: string, check: nat, c: Check) {
    check < |w.checks| && w.checks[check] == c && sid in w.requests && w.requests[sid] == check
  }

  lemma EndStays(w: World, other: nat, verdict: bool, sid: string, check: nat, c: Check)
    requires other < |w.checks| && other != check && Asked(w, sid, check, c)
    ensures Asked(End(w, other, verdict), sid, check, c)
  {
  }

  lemma CheckStays(w: World, id: nat, valid: bool, allowed: bool, sid: string, check: nat, c: Check)
    requires id < |w.emissions| && w.emissions[id].selected != [] && Asked(w, sid, check, c)
    requires w.emissions[id].selected[0].0 == sid ==> !Expired(w.emissions[id], valid)
    ensures Asked(CheckOne(w, id, valid, allowed), sid, check, c)
  {
  }

  lemma RequestStays(w: World, s: Step, sid: string, check: nat, c: Check)
    requires Enabled(w, s) && Asked(w, sid, check, c) && LeavesRequest(w, s, sid, check)
    ensures Asked(Next(w, s), sid, check, c)
  {
    match s
    case EndDisplay(other, verdict) => EndStays(w, other, verdict, sid, check, c);
    case CheckNext(id, valid, allowed) => CheckStays(w, id, valid, allowed, sid, check, c);
    case SendNext(_) =>
    case Connect(_, _, _) =>
    case Disconnect(_) =>
    case _ =>
  }

  lemma {:induction false} RequestStaysAlong(w: World, steps: seq<Step>, sid: string, check: nat, c: Check)
    requires IsRun(w, steps) && Asked(w, sid, check, c) && AllLeaveRequest(w, steps, sid, check)
    ensures Asked(After(w, steps), sid, check, c)
    decreases |steps|
  {
    if steps != [] {
      RequestStays(w, steps[0], sid, check, c);
      RequestStaysAlong(Next(w, steps[0]), steps[1..], sid, check, c);
    }
  }

  /** A live connection that asks for a room, is not disturbed and gets a positive verdict displays
      that room. */
  lemma LatestIsShown(w: World, sid: string, room: string, steps: seq<Step>)
    requires sid in w.connected
    requires var u := Next(w, AskDisplay(sid, room)); IsRun(u, steps) && AllLeaveRequest(u, steps, sid, |w.checks|)
    ensures var v := After(Next(w, AskDisplay(sid, room)), steps);
            && |w.checks| < |v.checks|
            && var x := Next(v, EndDisplay(|w.checks|, true)); sid in x.displayed && x.displayed[sid] == room
  {
    AskMeaning(w, sid, room);
    var u := Next(w, AskDisplay(sid, room));
    RequestStaysAlong(u, steps, sid, |w.checks|, u.checks[|w.checks|]);
    VerdictShows(After(u, steps), |w.checks|);
  }
}
