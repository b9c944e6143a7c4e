/** The caches of an emission, and the real-time server's module dictionaries and handlers. */
module RealtimeServer {
  import opened Wrappers
  import opened RealtimeRooms

  // ----- one session check per token is enough -----

  ghost predicate TokenDecides(rules: Rules, pairs: seq<(string, Identity)>) {
    forall i, j :: 0 <= i < |pairs| && 0 <= j < |pairs| && pairs[i].1.token == pairs[j].1.token ==>
      rules.valid(pairs[i].1) == rules.valid(pairs[j].1)
  }

  /** The identity that the handshake derives from a token: its user and its role. */
  predicate Signed(auth: string -> (int, Option<int>), identity: Identity) {
    identity.userId == auth(identity.token).0 && identity.roleId == auth(identity.token).1
  }

  ghost predicate AllSigned(auth: string -> (int, Option<int>), w: World) {
    forall sid :: sid in w.known ==> Signed(auth, w.known[sid])
  }

  ghost predicate SignedSteps(auth: string -> (int, Option<int>), steps: seq<Step>) {
    forall i :: 0 <= i < |steps| && steps[i].Connect? ==> Signed(auth, steps[i].identity)
  }

  /** Connections and emissions are left alone. */
  ghost predicate Frame(w: World, u: World) {
    u.known == w.known && u.connected == w.connected && u.emissions == w.emissions
  }

  lemma EndFrame(w: World, id: nat, verdict: bool)
    requires id < |w.checks|
    ensures Frame(w, End(w, id, verdict))
  {
  }

  lemma RoomFrame(w: World, s: Step)
    requires s.HideRoom? || s.AskDisplay? || s.Subscribe? || s.Join? || s.Leave?
    ensures Frame(w, Next(w, s))
  {
  }

  lemma CheckFrame(w: World, id: nat, valid: bool, allowed: bool)
    requires id < |w.emissions| && w.emissions[id].selected != []
    ensures var u := CheckOne(w, id, valid, allowed);
            && u.known == w.known && u.connected.Keys <= w.connected.Keys
            && u.emissions == w.emissions[id := Checked(w.emissions[id], valid, allowed)]
            && (Expired(w.emissions[id], valid) ==> w.emissions[id].selected[0].0 !in u.connected)
            && (!Expired(w.emissions[id], valid) ==> u.connected == w.connected)
  {
  }

  lemma ServeFrame(w: World, id: nat)
    requires id < |w.emissions| && w.emissions[id].recipients != []
    ensures var u, e := Serve(w, id), w.emissions[id];
            && u.known == w.known && u.connected == w.connected
            && u.emissions == w.emissions[id := e.(recipients := e.recipients[1..],
                                                   served := e.served + [(e.recipients[0],
                                                                          Wanted(w, e.recipients[0], e))])]
  {
  }

  /** Only a handshake makes a connection known. */
  lemma KnownAfter(w: World, s: Step)
    requires Enabled(w, s)
    ensures Next(w, s).known == if s.Connect? then w.known[s.sid := s.identity] else w.known
    ensures forall sid :: sid in Next(w, s).connected ==> sid in w.connected || (s.Connect? && sid == s.sid)
  {
    match s
    case Connect(_, _, _) =>
    case Disconnect(_) =>
    case BeginEmit(_, _, _, _) =>
    case EndDisplay(id, verdict) => EndFrame(w, id, verdict);
    case CheckNext(id, valid, allowed) => CheckFrame(w, id, valid, allowed);
    case SendNext(id) => ServeFrame(w, id);
    case _ => RoomFrame(w, s);
  }

  lemma {:induction false} RunKeepsSigned(auth: string -> (int, Option<int>), w: World, steps: seq<Step>)
    requires AllSigned(auth, w) && IsRun(w, steps) && SignedSteps(auth, steps)
    ensures AllSigned(auth, After(w, steps))
    decreases |steps|
  {
    if steps != [] {
      KnownAfter(w, steps[0]);
      RunKeepsSigned(auth, Next(w, steps[0]), steps[1..]);
    }
  }

  /** All connections that an emission concerns, checked or not. */
  function Concerned(e: Emission): seq<(string, Identity)> { e.checked + e.selected }

  lemma KnownTokensDecide(auth: string -> (int, Option<int>), w: World, pairs: seq<(string, Identity)>, rules: Rules)
    requires AllSigned(auth, w) && Known(w, pairs)
    ensures TokenDecides(rules, pairs)
  {
    forall i, j | 0 <= i < |pairs| && 0 <= j < |pairs| && pairs[i].1.token == pairs[j].1.token
      ensures pairs[i].1 == pairs[j].1
    {
      assert Signed(auth, w.known[pairs[i].0]) && Signed(auth, w.known[pairs[j].0]);
    }
  }

  /** In every run one check per token is enough, whatever the check says. */
  lemma TokensDecide(auth: string -> (int, Option<int>), steps: seq<Step>, id: nat, rules: Rules)
    requires IsRun(EMPTY_SERVER, steps) && SignedSteps(auth, steps) && id < |After(EMPTY_SERVER, steps).emissions|
    ensures TokenDecides(rules, Concerned(After(EMPTY_SERVER, steps).emissions[id]))
  {
    RunKeepsInv(EMPTY_SERVER, steps);
    RunKeepsSigned(auth, EMPTY_SERVER, steps);
    var w := After(EMPTY_SERVER, steps);
    assert EmissionOk(w, w.emissions[id]);
    KnownTokensDecide(auth, w, Concerned(w.emissions[id]), rules);
  }

  function Sids(pairs: seq<(string, Identity)>): seq<string> {
    seq(|pairs|, i requires 0 <= i < |pairs| => pairs[i].0)
  }

  lemma TurnsAreApproved(w: World, id: nat)
    requires KnownOk(w) && id < |w.emissions| && w.emissions[id].served == []
    ensures w.emissions[id].recipients == Sids(w.emissions[id].approved)
  {
    assert EmissionOk(w, w.emissions[id]);
  }

  // ----- the caches change nothing -----

  /** The caches hold what the rules say. */
  ghost predicate CachesFollow(rules: Rules, e: Emission) {
    && (forall i :: 0 <= i < |Concerned(e)| && Concerned(e)[i].1.token in e.validTokens ==>
          e.validTokens[Concerned(e)[i].1.token] == rules.valid(Concerned(e)[i].1))
    && (forall user, role :: (user, role) in e.permissions ==> e.permissions[(user, role)] == rules.allowed(user, role))
  }

  /** What was approved so far is what checking every connection on its own approves, and
      checked connections without a valid session are gone. */
  ghost predicate FollowsRules(rules: Rules, w: World, e: Emission) {
    && CachesFollow(rules, e)
    && e.approved == Approved(rules, e.checked)
    && (forall i :: 0 <= i < |e.checked| && !rules.valid(e.checked[i].1) ==> e.checked[i].0 !in w.connected)
  }

  lemma ApprovedSnoc(rules: Rules, pairs: seq<(string, Identity)>, p: (string, Identity))
    ensures Approved(rules, pairs + [p]) == Approved(rules, pairs) + if Entitled(rules, p.1) then [p] else []
  {
    assert (pairs + [p])[..|pairs|] == pairs;
  }

  lemma CheckedConcerned(e: Emission, valid: bool, allowed: bool)
    requires e.selected != []
    ensures Concerned(Checked(e, valid, allowed)) == Concerned(e) && Checked(e, valid, allowed).served == e.served
    ensures e.selected[0] == Concerned(e)[|e.checked|]
  {
    assert e.selected == [e.selected[0]] + e.selected[1..];
  }

  /** With the caches, a connection is approved exactly when its own check succeeds. */
  lemma CheckedAlone(rules: Rules, e: Emission, valid: bool, allowed: bool)
    requires e.selected != [] && CachesFollow(rules, e) && TokenDecides(rules, Concerned(e))
    requires var identity := e.selected[0].1;
             valid == rules.valid(identity) && allowed == rules.allowed(identity.userId, identity.roleId)
    ensures CachesFollow(rules, Checked(e, valid, allowed)) && Expired(e, valid) == !valid
    ensures Checked(e, valid, allowed).approved
         == e.approved + if Entitled(rules, e.selected[0].1) then [e.selected[0]] else []
  {
    CheckedConcerned(e, valid, allowed);
    assert Concerned(e)[|e.checked|].1 == e.selected[0].1;
  }

  lemma CheckFollows(rules: Rules, w: World, id: nat, valid: bool, allowed: bool)
    requires id < |w.emissions| && w.emissions[id].selected != []
    requires FollowsRules(rules, w, w.emissions[id]) && TokenDecides(rules, Concerned(w.emissions[id]))
    requires var identity := w.emissions[id].selected[0].1;
             valid == rules.valid(identity) && allowed == rules.allowed(identity.userId, identity.roleId)
    ensures var u := CheckOne(w, id, valid, allowed); FollowsRules(rules, u, u.emissions[id])
  {
    var e := w.emissions[id];
    CheckFrame(w, id, valid, allowed);
    CheckedAlone(rules, e, valid, allowed);
    ApprovedSnoc(rules, e.checked, e.selected[0]);
  }

  /** What a step leaves alone in an emission that it does not check. */
  ghost predicate SameChecks(e: Emission, f: Emission) {
    f == e.(recipients := f.recipients, served := f.served)
  }

  lemma OtherStepChecks(w: World, s: Step, id: nat)
    requires Enabled(w, s) && id < |w.emissions| && !(s.CheckNext? && s.emission == id)
    ensures id < |Next(w, s).emissions| && SameChecks(w.emissions[id], Next(w, s).emissions[id])
  {
    match s
    case Connect(_, _, _) =>
    case Disconnect(_) =>
    case BeginEmit(_, _, _, _) =>
    case EndDisplay(check, verdict) => EndFrame(w, check, verdict);
    case CheckNext(other, valid, allowed) => CheckFrame(w, other, valid, allowed);
    case SendNext(other) => ServeFrame(w, other);
    case _ => RoomFrame(w, s);
  }

  lemma OtherStepFollows(rules: Rules, w: World, s: Step, id: nat)
    requires Enabled(w, s) && id < |w.emissions| && !(s.CheckNext? && s.emission == id)
    requires FollowsRules(rules, w, w.emissions[id]) && Known(w, w.emissions[id].checked)
    ensures id < |Next(w, s).emissions| && FollowsRules(rules, Next(w, s), Next(w, s).emissions[id])
  {
    OtherStepChecks(w, s, id);
    KnownAfter(w, s);
    var e, f := w.emissions[id], Next(w, s).emissions[id];
    assert Concerned(f) == Concerned(e);
    forall i | 0 <= i < |f.checked| && !rules.valid(f.checked[i].1)
      ensures f.checked[i].0 !in Next(w, s).connected
    {
      assert e.checked[i] == f.checked[i] && e.checked[i].0 in w.known;
    }
  }

  /** Every lookup of emission `id` along the run is answered as the rules say. */
  ghost predicate AnsweredBy(rules: Rules, w: World, steps: seq<Step>, id: nat)
    requires IsRun(w, steps)
    decreases |steps|
  {
    steps != [] ==>
      && (steps[0].CheckNext? && steps[0].emission == id ==>
            var identity := w.emissions[id].selected[0].1;
            && steps[0].valid == rules.valid(identity)
            && steps[0].allowed == rules.allowed(identity.userId, identity.roleId))
      && AnsweredBy(rules, Next(w, steps[0]), steps[1..], id)
  }

  lemma StepFollows(auth: string -> (int, Option<int>), rules: Rules, w: World, steps: seq<Step>, id: nat)
    requires Inv(w) && AllSigned(auth, w) && IsRun(w, steps) && steps != [] && AnsweredBy(rules, w, steps, id)
    requires id < |w.emissions| && FollowsRules(rules, w, w.emissions[id])
    ensures id < |Next(w, steps[0]).emissions|
    ensures FollowsRules(rules, Next(w, steps[0]), Next(w, steps[0]).emissions[id])
  {
    var s := steps[0];
    assert EmissionOk(w, w.emissions[id]);
    if s.CheckNext? && s.emission == id {
      KnownTokensDecide(auth, w, Concerned(w.emissions[id]), rules);
      CheckFollows(rules, w, id, s.valid, s.allowed);
    } else {
      OtherStepFollows(rules, w, s, id);
    }
  }

  /** A new emission has checked nothing yet. */
  lemma BeginFollows(rules: Rules, w: World, s: Step, id: nat)
    requires Enabled(w, s) && |w.emissions| <= id < |Next(w, s).emissions|
    ensures FollowsRules(rules, Next(w, s), Next(w, s).emissions[id])
  {
    match s
    case BeginEmit(_, _, _, _) =>
    case Connect(_, _, _) =>
    case Disconnect(_) =>
    case EndDisplay(check, verdict) => EndFrame(w, check, verdict);
    case CheckNext(other, valid, allowed) => CheckFrame(w, other, valid, allowed);
    case SendNext(other) => ServeFrame(w, other);
    case _ => RoomFrame(w, s);
  }

  lemma {:induction false} RunFollows(auth: string -> (int, Option<int>), rules: Rules, w: World, steps: seq<Step>,
                                      id: nat)
    requires Inv(w) && AllSigned(auth, w) && IsRun(w, steps) && SignedSteps(auth, steps)
    requires AnsweredBy(rules, w, steps, id)
    requires id < |w.emissions| ==> FollowsRules(rules, w, w.emissions[id])
    ensures id < |After(w, steps).emissions| ==> FollowsRules(rules, After(w, steps), After(w, steps).emissions[id])
    decreases |steps|
  {
    if steps != [] {
      var u := Next(w, steps[0]);
      StepKeepsInv(w, steps[0]);
      KnownAfter(w, steps[0]);
      if id < |w.emissions| {
        StepFollows(auth, rules, w, steps, id);
      } else if id < |u.emissions| {
        BeginFollows(rules, w, steps[0], id);
      }
      RunFollows(auth, rules, u, steps[1..], id);
    }
  }

  /** In every interleaving, also between the checks of one emission: if its lookups are
      answered by one set of rules, the cached checks approve exactly the connections whose
      own check succeeds, and drop exactly those whose session is invalid. */
  lemma CachedIsUncached(auth: string -> (int, Option<int>), rules: Rules, steps: seq<Step>, id: nat)
    requires IsRun(EMPTY_SERVER, steps) && SignedSteps(auth, steps) && AnsweredBy(rules, EMPTY_SERVER, steps, id)
    requires id < |After(EMPTY_SERVER, steps).emissions|
    ensures var w := After(EMPTY_SERVER, steps);
            var e := w.emissions[id];
            && e.approved == Approved(rules, e.checked)
            && (forall i :: 0 <= i < |e.checked| && !rules.valid(e.checked[i].1) ==> e.checked[i].0 !in w.connected)
  {
    RunFollows(auth, rules, EMPTY_SERVER, steps, id);
  }

  /** A recipient that is still connected was found entitled. */
  lemma RecipientEntitled(w: World, id: nat)
    requires KnownOk(w) && id < |w.emissions| && w.emissions[id].recipients != []
    ensures var e := w.emissions[id];
            e.recipients[0] in w.connected ==> FoundEntitled(e, w.connected[e.recipients[0]])
  {
    var e := w.emissions[id];
    assert EmissionOk(w, e) && e.approved[|e.served|].0 == e.recipients[0];
    assert FoundEntitled(e, e.approved[|e.served|].1);
  }

  // ----- the handlers -----

  class Server {
    var connected: map<string, Identity>
    var displayed: map<string, string>
    var requests: map<string, nat>
    var subscriptions: map<string, set<string>>
    var joined: map<string, set<string>>
    var checks: seq<Check>
    var emissions: seq<Emission>
    ghost var deliveries: seq<Delivery>
    ghost var known: map<string, Identity>
    ghost var latest: map<string, string>
    ghost var granted: set<(Identity, string)>

    ghost function View(): World
      reads this
    {
      World(connected, displayed, requests, subscriptions, joined, checks, emissions, deliveries, known, latest,
            granted)
    }

    ghost predicate Valid()
      reads this
    {
      Inv(View())
    }

    constructor ()
      ensures Valid() && View() == EMPTY_SERVER
    {
      connected, displayed, requests, subscriptions, joined, checks := map[], map[], map[], map[], map[], [];
      emissions, deliveries, known, latest, granted := [], [], map[], map[], {};
    }

    method HandleConnect(sid: string, identity: Identity, events: Option<set<string>>)
      modifies this
      ensures View() == ConnectAs(old(View()), sid, identity, events)
      ensures old(Valid()) && sid !in old(known) ==> Valid()
      ensures sid !in displayed && sid !in requests
    {
      if Valid() && sid !in known { ConnectInv(View(), sid, identity, events); }
      displayed := Without(displayed, sid);
      requests := Without(requests, sid);
      connected := connected[sid := identity];
      if events.Some? {
        subscriptions := subscriptions[sid := events.value];
      } else {
        subscriptions := Without(subscriptions, sid);
      }
      known, latest := known[sid := identity], Without(latest, sid);
    }

    method HandleDisconnect(sid: string)
      requires Valid()
      modifies this
      ensures Valid() && View() == Drop(old(View()), sid)
    {
      DropInv(View(), sid);
      connected := Without(connected, sid);
      displayed := Without(displayed, sid);
      requests := Without(requests, sid);
      subscriptions := Without(subscriptions, sid);
      joined := Without(joined, sid);
      latest := Without(latest, sid);
    }

    method HideDisplayed(sid: string)
      requires Valid()
      modifies this`displayed, this`requests, this`latest
      ensures Valid() && View() == Hide(old(View()), sid)
    {
      StepKeepsInv(View(), HideRoom(sid));
      displayed := Without(displayed, sid);
      requests := Without(requests, sid);
      latest := Without(latest, sid);
    }

    /** A display request up to its authorization lookup. */
    method BeginRoomDisplay(sid: string, room: Option<string>) returns (check: Option<nat>)
      requires Valid()
      modifies this
      ensures Valid() && sid !in displayed
      ensures View() == if room.None? then Hide(old(View()), sid) else Ask(old(View()), sid, room.value)
      ensures room.Some? ==> check == Some(|old(checks)|)
    {
      if room.Some? { AskInv(View(), sid, room.value); }
      HideDisplayed(sid);
      if room.None? { return None; }
      check := Some(|checks|);
      requests := requests[sid := |checks|];
      checks := checks + [Check(sid, room.value, if sid in connected then Some(connected[sid]) else None)];
      latest := latest[sid := room.value];
    }

    /** A display request after its authorization lookup: it shows its room only if it is the
        latest request of a connection that is still the same. */
    method EndRoomDisplay(check: nat, verdict: bool) returns (shown: bool)
      requires Valid() && check < |checks|
      modifies this
      ensures Valid() && View() == End(old(View()), check, verdict)
      ensures shown ==> verdict && checks[check].sid in displayed && displayed[checks[check].sid] == checks[check].room
      ensures shown ==> checks[check].sid in connected && latest[checks[check].sid] == checks[check].room
    {
      EndInv(View(), check, verdict);
      var c := checks[check];
      if c.sid !in requests || requests[c.sid] != check { return false; }
      requests := Without(requests, c.sid);
      if c.identity.None? || !verdict { return false; }
      displayed := displayed[c.sid := c.room];
      granted := granted + {(c.identity.value, c.room)};
      return true;
    }

    method HandleEventSubscriptions(sid: string, events: set<string>) returns (ok: bool)
      requires Valid()
      modifies this`subscriptions
      ensures Valid() && ok == (sid in connected)
      ensures subscriptions == if ok then old(subscriptions)[sid := events] else old(subscriptions)
    {
      if sid !in connected { return false; }
      StepKeepsInv(View(), Subscribe(sid, events));
      subscriptions := subscriptions[sid := events];
      return true;
    }

    /** The connections that an event concerns. */
    method SelectIdentities(order: seq<string>, e: Emission) returns (selected: seq<(string, Identity)>)
      ensures selected == Select(View(), order, e)
    {
      selected := [];
      for i := 0 to |order|
        invariant selected == Select(View(), order[..i], e)
      {
        var sid := order[i];
        assert order[..i + 1][..i] == order[..i];
        var wanted := MaySend(sid, e);
        if wanted {
          selected := selected + [(sid, connected[sid])];
        }
      }
      assert order[..|order|] == order;
    }

    /** An emission up to its first lookup. */
    method BeginEmission(event: string, displayedRoom: Option<string>, joinedRoom: Option<string>, order: seq<string>)
      requires Valid() && (forall sid :: sid in order <==> sid in connected)
      requires forall i, j :: 0 <= i < j < |order| ==> order[i] != order[j]
      modifies this`emissions
      ensures Valid() && View() == Next(old(View()), BeginEmit(event, displayedRoom, joinedRoom, order))
    {
      StepKeepsInv(View(), BeginEmit(event, displayedRoom, joinedRoom, order));
      var e := Offer(event, displayedRoom, joinedRoom);
      var selected := SelectIdentities(order, e);
      emissions := emissions + [e.(selected := selected)];
    }

    /** One pass of the authorization loop, with the answers of its lookups. */
    method CheckRecipient(id: nat, valid: bool, allowed: bool)
      requires Valid() && id < |emissions| && emissions[id].selected != []
      modifies this
      ensures Valid() && View() == CheckOne(old(View()), id, valid, allowed)
    {
      CheckOneInv(View(), id, valid, allowed);
      var next, expired := LookUp(emissions[id], valid, allowed);
      if expired {
        HandleDisconnect(emissions[id].selected[0].0);
      }
      emissions := emissions[id := next];
    }

    /** The session check and the permission check of the next connection, with their caches. */
    method LookUp(e: Emission, valid: bool, allowed: bool) returns (next: Emission, expired: bool)
      requires e.selected != []
      ensures next == Checked(e, valid, allowed) && expired == Expired(e, valid)
      ensures !expired <==> next.validTokens[e.selected[0].1.token]
      ensures FoundEntitled(next, e.selected[0].1) ==>
                next.approved == e.approved + [e.selected[0]] && next.recipients == e.recipients + [e.selected[0].0]
      ensures !FoundEntitled(next, e.selected[0].1) ==> next.approved == e.approved && next.recipients == e.recipients
    {
      var (sid, identity) := e.selected[0];
      var key := (identity.userId, identity.roleId);
      next := e.(checked := e.checked + [e.selected[0]], selected := e.selected[1..]);
      if identity.token !in next.validTokens {
        next := next.(validTokens := next.validTokens[identity.token := valid]);
      }
      expired := !next.validTokens[identity.token];
      if expired { return; }
      if key !in next.permissions {
        next := next.(permissions := next.permissions[key := allowed]);
      }
      if next.permissions[key] {
        next := next.(approved := next.approved + [e.selected[0]], recipients := next.recipients + [sid]);
      }
    }

    /** The whole loop when nothing comes between: exactly the connections whose own check
        succeeds are approved. */
    method AuthorizeRecipients(id: nat, rules: Rules)
      requires Valid() && id < |emissions| && FollowsRules(rules, View(), emissions[id])
      requires TokenDecides(rules, Concerned(emissions[id]))
      modifies this
      ensures Valid() && |emissions| == |old(emissions)| && emissions[id].selected == []
      ensures emissions[id].checked == Concerned(old(emissions[id]))
      ensures emissions[id].approved == Approved(rules, Concerned(old(emissions[id])))
      ensures old(emissions[id]).served == [] ==> emissions[id].recipients == Sids(emissions[id].approved)
      ensures FollowsRules(rules, View(), emissions[id])
    {
      while emissions[id].selected != []
        invariant Valid() && |emissions| == |old(emissions)|
        invariant Concerned(emissions[id]) == Concerned(old(emissions[id]))
        invariant FollowsRules(rules, View(), emissions[id])
        invariant emissions[id].served == old(emissions[id]).served
        decreases |emissions[id].selected|
      {
        var identity := emissions[id].selected[0].1;
        var valid, allowed := rules.valid(identity), rules.allowed(identity.userId, identity.roleId);
        CheckFollows(rules, View(), id, valid, allowed);
        CheckedConcerned(emissions[id], valid, allowed);
        CheckRecipient(id, valid, allowed);
      }
      if emissions[id].served == [] { TurnsAreApproved(View(), id); }
    }

    /** The last look before an event is sent to one recipient. */
    method MaySend(sid: string, e: Emission) returns (ok: bool)
      ensures ok == Wanted(View(), sid, e)
    {
      if sid !in connected || (sid in subscriptions && e.event !in subscriptions[sid]) { return false; }
      if e.displayedRoom.Some? && (sid !in displayed || displayed[sid] != e.displayedRoom.value) { return false; }
      if e.joinedRoom.Some? && (sid !in joined || e.joinedRoom.value !in joined[sid]) { return false; }
      return true;
    }

    /** One pass of the sending loop: only a connection that wants the event now and was
        found entitled to it gets it. */
    method SendToNext(id: nat) returns (sent: bool)
      requires Valid() && Enabled(View(), SendNext(id))
      modifies this`emissions, this`deliveries
      ensures Valid() && View() == Serve(old(View()), id)
      ensures sent ==> old(emissions[id]).recipients[0] in connected
                       && FoundEntitled(old(emissions[id]), connected[old(emissions[id]).recipients[0]])
    {
      ServeInv(View(), id);
      var e := emissions[id];
      var sid := e.recipients[0];
      RecipientEntitled(View(), id);
      sent := MaySend(sid, e);
      if sent {
        deliveries := deliveries + [Delivery(id, sid, connected[sid])];
      }
      emissions := emissions[id := e.(recipients := e.recipients[1..], served := e.served + [(sid, sent)])];
    }
  }
}
