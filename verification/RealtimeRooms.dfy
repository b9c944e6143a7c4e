/** Connections, displayed rooms and event delivery of the real-time server. Each step is one
    stretch of handler code between two awaits; a handler that looks something up in the
    database begins and ends in different steps. */
module RealtimeRooms {
  import opened Wrappers

  datatype Identity = Identity(userId: int, roleId: Option<int>, token: string)

  /** A display request whose authorization is being looked up; `identity` is who was connected
      when the lookup began. */
  datatype Check = Check(sid: string, room: string, identity: Option<Identity>)

  /** An event on its way: the selected connections that were checked and those still to be,
      the two caches of the checks, the connections found entitled, the recipients still to be
      served, and those that had their turn, each with whether the event was sent. */
  datatype Emission = Emission(
    event: string,
    displayedRoom: Option<string>,
    joinedRoom: Option<string>,
    checked: seq<(string, Identity)>,
    selected: seq<(string, Identity)>,
    validTokens: map<string, bool>,
    permissions: map<(int, Option<int>), bool>,
    approved: seq<(string, Identity)>,
    recipients: seq<string>,
    served: seq<(string, bool)>)

  datatype Delivery = Delivery(emission: nat, sid: string, identity: Identity)

  /** `known` says whose every connection id ever handed out is or was, `latest` is the last
      display request of each connection, `granted` are the room lookups that came out
      positive. */
  datatype World = World(
    connected: map<string, Identity>,
    displayed: map<string, string>,
    requests: map<string, nat>,
    subscriptions: map<string, set<string>>,
    joined: map<string, set<string>>,
    checks: seq<Check>,
    emissions: seq<Emission>,
    deliveries: seq<Delivery>,
    known: map<string, Identity>,
    latest: map<string, string>,
    granted: set<(Identity, string)>)

  /** The outcome of the live session check and of the privilege and resource checks. */
  datatype Rules = Rules(valid: Identity -> bool, allowed: (int, Option<int>) -> bool)

  datatype Step =
    | Connect(sid: string, identity: Identity, declared: Option<set<string>>)
    | Disconnect(sid: string)
    | HideRoom(sid: string)
    | AskDisplay(sid: string, room: string)
    | EndDisplay(check: nat, verdict: bool)
    | Subscribe(sid: string, events: set<string>)
    | Join(sid: string, room: string)
    | Leave(sid: string, room: string)
    | BeginEmit(event: string, displayedRoom: Option<string>, joinedRoom: Option<string>, order: seq<string>)
    | CheckNext(emission: nat, valid: bool, allowed: bool)
    | SendNext(emission: nat)

  function Without<T>(m: map<string, T>, sid: string): map<string, T> {
    map s | s in m && s != sid :: m[s]
  }

  function Drop(w: World, sid: string): World {
    w.(connected := Without(w.connected, sid),
       displayed := Without(w.displayed, sid),
       requests := Without(w.requests, sid),
       subscriptions := Without(w.subscriptions, sid),
       joined := Without(w.joined, sid),
       latest := Without(w.latest, sid))
  }

  function ConnectAs(w: World, sid: string, identity: Identity, events: Option<set<string>>): World {
    w.(connected := w.connected[sid := identity],
       displayed := Without(w.displayed, sid),
       requests := Without(w.requests, sid),
       subscriptions := if events.Some? then w.subscriptions[sid := events.value] else Without(w.subscriptions, sid),
       known := w.known[sid := identity],
       latest := Without(w.latest, sid))
  }

  function Hide(w: World, sid: string): World {
    w.(displayed := Without(w.displayed, sid), requests := Without(w.requests, sid), latest := Without(w.latest, sid))
  }

  /** A display request replaces whatever the connection displayed or asked for before. */
  function Ask(w: World, sid: string, room: string): World {
    var h := Hide(w, sid);
    h.(requests := h.requests[sid := |w.checks|],
       checks := h.checks + [Check(sid, room, if sid in w.connected then Some(w.connected[sid]) else None)],
       latest := h.latest[sid := room])
  }

  /** The lookup has ended. Its result counts only if no newer request or disconnection has
      superseded it. */
  function End(w: World, id: nat, verdict: bool): World
    requires id < |w.checks|
  {
    var c := w.checks[id];
    if c.sid !in w.requests || w.requests[c.sid] != id then w
    else
      var ended := w.(requests := Without(w.requests, c.sid));
      if c.identity.None? || !verdict then ended
      else ended.(displayed := w.displayed[c.sid := c.room], granted := w.granted + {(c.identity.value, c.room)})
  }

  predicate Requested(w: World, sid: string, event: string) {
    sid !in w.subscriptions || event in w.subscriptions[sid]
  }

  predicate InRoom(w: World, sid: string, room: string) {
    sid in w.joined && room in w.joined[sid]
  }

  /** The event may be sent to this connection now. */
  predicate Wanted(w: World, sid: string, e: Emission) {
    && sid in w.connected
    && Requested(w, sid, e.event)
    && (e.displayedRoom.Some? ==> sid in w.displayed && w.displayed[sid] == e.displayedRoom.value)
    && (e.joinedRoom.Some? ==> InRoom(w, sid, e.joinedRoom.value))
  }

  /** The connections that want the event, in the order in which they are kept. */
  function Select(w: World, order: seq<string>, e: Emission): seq<(string, Identity)> {
    if order == [] then []
    else
      var rest := Select(w, order[..|order| - 1], e);
      var sid := order[|order| - 1];
      if Wanted(w, sid, e) then rest + [(sid, w.connected[sid])] else rest
  }

  /** The check of one connection on its own. */
  predicate Entitled(rules: Rules, identity: Identity) {
    rules.valid(identity) && rules.allowed(identity.userId, identity.roleId)
  }

  /** The entitled connections, each checked on its own. */
  function Approved(rules: Rules, selected: seq<(string, Identity)>): seq<(string, Identity)> {
    if selected == [] then []
    else
      var rest := Approved(rules, selected[..|selected| - 1]);
      if Entitled(rules, selected[|selected| - 1].1) then rest + [selected[|selected| - 1]] else rest
  }

  /** The check of the next selected connection. `valid` and `allowed` are what the lookups
      would answer now; a cached answer is used instead where there is one. */
  function Checked(e: Emission, valid: bool, allowed: bool): Emission
    requires e.selected != []
  {
    var (sid, identity) := e.selected[0];
    var key := (identity.userId, identity.roleId);
    var tokens := if identity.token in e.validTokens then e.validTokens else e.validTokens[identity.token := valid];
    var next := e.(checked := e.checked + [e.selected[0]], selected := e.selected[1..], validTokens := tokens);
    if !tokens[identity.token] then next
    else
      var permissions := if key in e.permissions then e.permissions else e.permissions[key := allowed];
      var known := next.(permissions := permissions);
      if !permissions[key] then known
      else known.(approved := e.approved + [e.selected[0]], recipients := e.recipients + [sid])
  }

  /** The session of the next selected connection is found invalid. */
  predicate Expired(e: Emission, valid: bool)
    requires e.selected != []
  {
    var token := e.selected[0].1.token;
    if token in e.validTokens then !e.validTokens[token] else !valid
  }

  /** A connection whose session is invalid is dropped. */
  function CheckOne(w: World, id: nat, valid: bool, allowed: bool): World
    requires id < |w.emissions| && w.emissions[id].selected != []
  {
    var e := w.emissions[id];
    var u := if Expired(e, valid) then Drop(w, e.selected[0].0) else w;
    u.(emissions := w.emissions[id := Checked(e, valid, allowed)])
  }

  function Enter(w: World, sid: string, room: string): World {
    w.(joined := w.joined[sid := (if sid in w.joined then w.joined[sid] else {}) + {room}])
  }

  function Exit(w: World, sid: string, room: string): World {
    if sid in w.joined then w.(joined := w.joined[sid := w.joined[sid] - {room}]) else w
  }

  function Offer(event: string, displayed: Option<string>, joined: Option<string>): Emission {
    Emission(event, displayed, joined, [], [], map[], map[], [], [], [])
  }

  /** Serves the next recipient, if it still wants the event. */
  function Serve(w: World, id: nat): World
    requires id < |w.emissions| && w.emissions[id].recipients != []
  {
    var e := w.emissions[id];
    var sid := e.recipients[0];
    w.(emissions := w.emissions[id
                                := e.(recipients := e.recipients[1..],
                                      served := e.served + [(sid, Wanted(w, sid, e))])],
       deliveries := if Wanted(w, sid, e) then w.deliveries + [Delivery(id, sid, w.connected[sid])] else w.deliveries)
  }

  ghost predicate Enabled(w: World, s: Step) {
    match s
    case Connect(sid, _, _) => sid !in w.known
    case EndDisplay(id, _) => id < |w.checks|
    case Subscribe(sid, _) => sid in w.connected
    case BeginEmit(_, _, _, order) =>
      && (forall sid :: sid in order <==> sid in w.connected)
      && (forall i, j :: 0 <= i < j < |order| ==> order[i] != order[j])
    case CheckNext(id, _, _) => id < |w.emissions| && w.emissions[id].selected != []
    case SendNext(id) => id < |w.emissions| && w.emissions[id].selected == [] && w.emissions[id].recipients != []
    case _ => true
  }

  function Next(w: World, s: Step): World
    requires s.EndDisplay? ==> s.check < |w.checks|
    requires s.CheckNext? ==> s.emission < |w.emissions| && w.emissions[s.emission].selected != []
    requires s.SendNext? ==> s.emission < |w.emissions| && w.emissions[s.emission].recipients != []
  {
    match s
    case Connect(sid, identity, events) => ConnectAs(w, sid, identity, events)
    case Disconnect(sid) => Drop(w, sid)
    case HideRoom(sid) => Hide(w, sid)
    case AskDisplay(sid, room) => Ask(w, sid, room)
    case EndDisplay(id, verdict) => End(w, id, verdict)
    case Subscribe(sid, events) => w.(subscriptions := w.subscriptions[sid := events])
    case Join(sid, room) => Enter(w, sid, room)
    case Leave(sid, room) => Exit(w, sid, room)
    case BeginEmit(event, displayed, joined, order) =>
      var e := Offer(event, displayed, joined);
      w.(emissions := w.emissions + [e.(selected := Select(w, order, e))])
    case CheckNext(id, valid, allowed) => CheckOne(w, id, valid, allowed)
    case SendNext(id) => Serve(w, id)
  }

  // ----- the invariant -----

  /** What a connection displays is its latest request, was found authorized for whoever is
      connected, and no other request is under way. */
  ghost predicate DisplayOk(w: World) {
    forall sid :: sid in w.displayed ==>
      && sid in w.connected && sid !in w.requests
      && sid in w.latest && w.latest[sid] == w.displayed[sid]
      && (w.connected[sid], w.displayed[sid]) in w.granted
  }

  /** A request under way is the latest one, and whoever it is looked up for is still connected. */
  ghost predicate RequestsOk(w: World) {
    forall sid :: sid in w.requests ==>
      && w.requests[sid] < |w.checks|
      && w.checks[w.requests[sid]].sid == sid
      && sid in w.latest && w.latest[sid] == w.checks[w.requests[sid]].room
      && (w.checks[w.requests[sid]].identity.Some? ==>
            sid in w.connected && w.connected[sid] == w.checks[w.requests[sid]].identity.value)
  }

  ghost predicate Known(w: World, pairs: seq<(string, Identity)>) {
    forall i :: 0 <= i < |pairs| ==> pairs[i].0 in w.known && w.known[pairs[i].0] == pairs[i].1
  }

  /** In this emission the session and the permission of the identity were looked up, and
      both were found in order. */
  predicate FoundEntitled(e: Emission, identity: Identity) {
    var key := (identity.userId, identity.roleId);
    && identity.token in e.validTokens && e.validTokens[identity.token]
    && key in e.permissions && e.permissions[key]
  }

  ghost predicate EmissionOk(w: World, e: Emission) {
    && Known(w, e.checked) && Known(w, e.selected) && Known(w, e.approved)
    && (forall i :: 0 <= i < |e.approved| ==> FoundEntitled(e, e.approved[i].1))
    && EachHasTurn(e)
  }

  /** The approved connections, in order, are those that had their turn and then those still to
      be served. */
  ghost predicate EachHasTurn(e: Emission) {
    && |e.served| + |e.recipients| == |e.approved|
    && (forall i :: 0 <= i < |e.served| ==> e.approved[i].0 == e.served[i].0)
    && (forall i :: 0 <= i < |e.recipients| ==> e.approved[|e.served| + i].0 == e.recipients[i])
  }

  ghost predicate KnownOk(w: World) {
    && (forall sid :: sid in w.connected ==> sid in w.known && w.known[sid] == w.connected[sid])
    && (forall i :: 0 <= i < |w.emissions| ==> EmissionOk(w, w.emissions[i]))
  }

  /** Every delivery went to a connection of whoever was found entitled to that event. */
  ghost predicate DeliveriesOk(w: World) {
    forall i :: 0 <= i < |w.deliveries| ==>
      && w.deliveries[i].emission < |w.emissions|
      && (w.deliveries[i].sid, w.deliveries[i].identity) in w.emissions[w.deliveries[i].emission].approved
  }

  ghost predicate Inv(w: World) {
    DisplayOk(w) && RequestsOk(w) && KnownOk(w) && DeliveriesOk(w)
  }

  /** Connections that become known do not disturb the emissions on their way. */
  lemma SameEmissions(w: World, u: World)
    requires forall i :: 0 <= i < |w.emissions| ==> EmissionOk(w, w.emissions[i])
    requires DeliveriesOk(w) && u.emissions == w.emissions && u.deliveries == w.deliveries
    requires forall sid :: sid in w.known ==> sid in u.known && u.known[sid] == w.known[sid]
    ensures DeliveriesOk(u) && forall i :: 0 <= i < |u.emissions| ==> EmissionOk(u, u.emissions[i])
  {
    forall i | 0 <= i < |u.emissions|
      ensures EmissionOk(u, u.emissions[i])
    {
      assert EmissionOk(w, w.emissions[i]);
    }
  }

  lemma DropInv(w: World, sid: string)
    requires Inv(w)
    ensures Inv(Drop(w, sid))
  {
    SameEmissions(w, Drop(w, sid));
  }

  lemma ConnectDisplay(w: World, sid: string, identity: Identity, events: Option<set<string>>)
    requires DisplayOk(w) && RequestsOk(w)
    ensures DisplayOk(ConnectAs(w, sid, identity, events)) && RequestsOk(ConnectAs(w, sid, identity, events))
  {
  }

  lemma ConnectInv(w: World, sid: string, identity: Identity, events: Option<set<string>>)
    requires Inv(w) && sid !in w.known
    ensures Inv(ConnectAs(w, sid, identity, events))
  {
    SameEmissions(w, ConnectAs(w, sid, identity, events));
    ConnectDisplay(w, sid, identity, events);
  }

  lemma AskInv(w: World, sid: string, room: string)
    requires Inv(w)
    ensures Inv(Ask(w, sid, room))
  {
    SameEmissions(w, Ask(w, sid, room));
  }

  lemma EndInv(w: World, id: nat, verdict: bool)
    requires Inv(w) && id < |w.checks|
    ensures Inv(End(w, id, verdict))
  {
    SameEmissions(w, End(w, id, verdict));
  }

  lemma {:induction false} SelectKnown(w: World, order: seq<string>, e: Emission)
    requires forall sid :: sid in w.connected ==> sid in w.known && w.known[sid] == w.connected[sid]
    ensures Known(w, Select(w, order, e))
    decreases |order|
  {
    if order != [] {
      SelectKnown(w, order[..|order| - 1], e);
    }
  }

  /** Replacing one emission by a consistent one; what it approved before stays approved. */
  lemma SetEmissionInv(w: World, id: nat, e: Emission)
    requires Inv(w) && id < |w.emissions| && EmissionOk(w, e)
    requires forall p :: p in w.emissions[id].approved ==> p in e.approved
    ensures Inv(w.(emissions := w.emissions[id := e]))
  {
    var u := w.(emissions := w.emissions[id := e]);
    forall i | 0 <= i < |u.emissions|
      ensures EmissionOk(u, u.emissions[i])
    {
      assert i != id ==> EmissionOk(w, w.emissions[i]);
    }
  }

  lemma AddEmissionInv(w: World, e: Emission)
    requires Inv(w) && EmissionOk(w, e)
    ensures Inv(w.(emissions := w.emissions + [e]))
  {
    var u := w.(emissions := w.emissions + [e]);
    forall i | 0 <= i < |u.emissions|
      ensures EmissionOk(u, u.emissions[i])
    {
      assert i < |w.emissions| ==> EmissionOk(w, w.emissions[i]);
    }
  }

  lemma CheckedRecipients(e: Emission, valid: bool, allowed: bool)
    requires e.selected != [] && EachHasTurn(e)
    ensures EachHasTurn(Checked(e, valid, allowed))
  {
  }

  lemma CheckedOk(w: World, e: Emission, valid: bool, allowed: bool)
    requires EmissionOk(w, e) && e.selected != []
    ensures EmissionOk(w, Checked(e, valid, allowed))
  {
    CheckedRecipients(e, valid, allowed);
  }

  lemma CheckOneInv(w: World, id: nat, valid: bool, allowed: bool)
    requires Inv(w) && Enabled(w, CheckNext(id, valid, allowed))
    ensures Inv(CheckOne(w, id, valid, allowed))
  {
    var e := w.emissions[id];
    var u := Drop(w, e.selected[0].0);
    DropInv(w, e.selected[0].0);
    assert EmissionOk(w, w.emissions[id]) && EmissionOk(u, u.emissions[id]);
    if Expired(e, valid) {
      CheckedInv(u, id, valid, allowed);
    } else {
      CheckedInv(w, id, valid, allowed);
    }
  }

  lemma CheckedInv(w: World, id: nat, valid: bool, allowed: bool)
    requires Inv(w) && id < |w.emissions| && w.emissions[id].selected != []
    ensures Inv(w.(emissions := w.emissions[id := Checked(w.emissions[id], valid, allowed)]))
  {
    assert EmissionOk(w, w.emissions[id]);
    CheckedOk(w, w.emissions[id], valid, allowed);
    SetEmissionInv(w, id, Checked(w.emissions[id], valid, allowed));
  }

  lemma ServeInv(w: World, id: nat)
    requires Inv(w) && Enabled(w, SendNext(id))
    ensures Inv(Serve(w, id))
  {
    var e := w.emissions[id];
    assert EmissionOk(w, e);
    var sid := e.recipients[0];
    var next := e.(recipients := e.recipients[1..], served := e.served + [(sid, Wanted(w, sid, e))]);
    assert forall i :: 0 <= i < |next.recipients| ==> next.recipients[i] == e.recipients[i + 1];
    assert EmissionOk(w, next);
    SetEmissionInv(w, id, next);
    var k := |e.served|;
    assert e.approved[k].0 == sid;
    if Wanted(w, sid, e) {
      assert e.approved[k] == (sid, w.connected[sid]);
      var u := w.(emissions := w.emissions[id := next]);
      DeliverInv(u, Delivery(id, sid, w.connected[sid]));
    }
  }

  lemma DeliverInv(w: World, d: Delivery)
    requires Inv(w) && d.emission < |w.emissions| && (d.sid, d.identity) in w.emissions[d.emission].approved
    ensures Inv(w.(deliveries := w.deliveries + [d]))
  {
    var u := w.(deliveries := w.deliveries + [d]);
    assert forall i :: 0 <= i < |w.emissions| ==> EmissionOk(w, w.emissions[i]);
    forall i | 0 <= i < |u.emissions|
      ensures EmissionOk(u, u.emissions[i])
    {
      assert EmissionOk(w, w.emissions[i]);
    }
  }

  lemma RoomsInv(w: World, s: Step)
    requires Inv(w) && Enabled(w, s) && (s.Subscribe? || s.Join? || s.Leave?)
    ensures Inv(Next(w, s))
  {
    SameEmissions(w, Next(w, s));
  }

  lemma StepKeepsInv(w: World, s: Step)
    requires Inv(w) && Enabled(w, s)
    ensures Inv(Next(w, s))
  {
    match s
    case Connect(sid, identity, events) => ConnectInv(w, sid, identity, events);
    case Disconnect(sid) => DropInv(w, sid);
    case AskDisplay(sid, room) => AskInv(w, sid, room);
    case EndDisplay(id, verdict) => EndInv(w, id, verdict);
    case BeginEmit(event, displayed, joined, order) =>
      var e := Offer(event, displayed, joined);
      SelectKnown(w, order, e);
      AddEmissionInv(w, e.(selected := Select(w, order, e)));
    case CheckNext(id, valid, allowed) => CheckOneInv(w, id, valid, allowed);
    case SendNext(id) => ServeInv(w, id);
    case HideRoom(sid) => SameEmissions(w, Hide(w, sid));
    case _ => RoomsInv(w, s);
  }

  // ----- whole runs -----

  ghost predicate IsRun(w: World, steps: seq<Step>)
    decreases |steps|
  {
    steps != [] ==> Enabled(w, steps[0]) && IsRun(Next(w, steps[0]), steps[1..])
  }

  ghost function After(w: World, steps: seq<Step>): World
    requires IsRun(w, steps)
    decreases |steps|
  {
    if steps == [] then w else After(Next(w, steps[0]), steps[1..])
  }

  const EMPTY_SERVER := World(map[], map[], map[], map[], map[], [], [], [], map[], map[], {})

  lemma {:induction false} RunKeepsInv(w: World, steps: seq<Step>)
    requires Inv(w) && IsRun(w, steps)
    ensures Inv(After(w, steps))
    decreases |steps|
  {
    if steps != [] {
      StepKeepsInv(w, steps[0]);
      RunKeepsInv(Next(w, steps[0]), steps[1..]);
    }
  }

  /** In every interleaving, a displayed room is the connection's latest request, was found
      authorized for the identity that is connected now, and the connection is alive. */
  lemma DisplayedIsLatest(steps: seq<Step>, sid: string)
    requires IsRun(EMPTY_SERVER, steps)
    ensures var w := After(EMPTY_SERVER, steps);
            sid in w.displayed ==>
              && sid in w.connected && sid in w.latest && w.latest[sid] == w.displayed[sid]
              && (w.connected[sid], w.displayed[sid]) in w.granted
  {
    RunKeepsInv(EMPTY_SERVER, steps);
  }

  lemma ApprovedMeaning(rules: Rules, selected: seq<(string, Identity)>, p: (string, Identity))
    ensures p in Approved(rules, selected) <==> p in selected && Entitled(rules, p.1)
  {
    if selected != [] {
      var n := |selected| - 1;
      assert selected == selected[..n] + [selected[n]];
      ApprovedMeaning(rules, selected[..n], p);
    }
  }

  /** In every interleaving, an event goes only to a connection that at that moment is alive,
      subscribed and, where the room policy asks for it, displaying or joined; and whose
      identity was among those found entitled to this very event. */
  lemma DeliverySafety(steps: seq<Step>, id: nat)
    requires IsRun(EMPTY_SERVER, steps) && Enabled(After(EMPTY_SERVER, steps), SendNext(id))
    ensures var w := After(EMPTY_SERVER, steps);
            var u := Next(w, SendNext(id));
            u.deliveries != w.deliveries ==>
              var e := w.emissions[id];
              var sid := e.recipients[0];
              && u.deliveries == w.deliveries + [Delivery(id, sid, w.connected[sid])]
              && Wanted(w, sid, e)
              && (sid, w.connected[sid]) in e.approved && FoundEntitled(e, w.connected[sid])
  {
    RunKeepsInv(EMPTY_SERVER, steps);
    var w := After(EMPTY_SERVER, steps);
    var e := w.emissions[id];
    assert EmissionOk(w, e) && e.approved[|e.served|].0 == e.recipients[0];
    assert FoundEntitled(e, e.approved[|e.served|].1);
  }
}
