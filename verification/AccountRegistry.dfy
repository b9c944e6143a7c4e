/** The account registry of the SSH executor and the operating-system tables it drives.
    An operation saves its intent first and then applies ordered effects; the machine may
    crash between any two of them. */
module AccountRegistry {
  import opened Wrappers

  const UID_START: nat := 20000

  datatype Entry = Entry(uid: nat, agentId: int, key: string, enabled: bool)

  datatype Registry = Registry(nextUid: nat, users: map<string, Entry>)

  datatype Account = Account(uid: nat, gid: nat, loginShell: bool, locked: bool)

  const ROOT: nat := 0

  /** A home directory: its owner, and whether nobody else may enter it. */
  datatype Home = Home(owner: nat, private: bool)

  /** `system` are the account and group names that the executor does not own. */
  datatype Machine = Machine(
    system: set<string>,
    registry: Registry,
    groups: map<string, nat>,
    accounts: map<string, Account>,
    homes: map<string, Home>,
    keys: map<string, string>)

  /** One effect that either happens or does not. Writing a key file truncates it first. */
  datatype Effect =
    | Save(registry: Registry)
    | EnsureGroup(code: string, uid: nat)
    | EnsureUnixAccount(code: string, uid: nat, enabled: bool)
    | MakeHome(code: string)
    | OwnHome(code: string, uid: nat)
    | CloseHome(code: string)
    | SetShell(code: string, enabled: bool)
    | SetPassword(code: string, enabled: bool)
    | TruncateKey(code: string)
    | WriteKey(code: string, content: string)

  function Apply(m: Machine, e: Effect): Machine {
    match e
    case Save(registry) => m.(registry := registry)
    case EnsureGroup(code, uid) =>
      if code in m.groups || code in m.system then m else m.(groups := m.groups[code := uid])
    case EnsureUnixAccount(code, uid, enabled) =>
      if code in m.accounts || code in m.system then m
      else m.(accounts := m.accounts[code := Account(uid, uid, enabled, true)],
              homes := if code in m.homes then m.homes else m.homes[code := Home(uid, false)])
    case MakeHome(code) => if code in m.homes then m else m.(homes := m.homes[code := Home(ROOT, true)])
    case OwnHome(code, uid) =>
      if code in m.homes then m.(homes := m.homes[code := m.homes[code].(owner := uid)]) else m
    case CloseHome(code) =>
      if code in m.homes then m.(homes := m.homes[code := m.homes[code].(private := true)]) else m
    case SetShell(code, enabled) =>
      if code in m.accounts then m.(accounts := m.accounts[code := m.accounts[code].(loginShell := enabled)]) else m
    case SetPassword(code, enabled) =>
      if code in m.accounts then m.(accounts := m.accounts[code := m.accounts[code].(locked := !enabled)]) else m
    case TruncateKey(code) => m.(keys := m.keys[code := ""])
    case WriteKey(code, content) => m.(keys := m.keys[code := content])
  }

  function ApplyAll(m: Machine, es: seq<Effect>): Machine
    decreases |es|
  {
    if es == [] then m else ApplyAll(Apply(m, es[0]), es[1..])
  }

  function HomeEffects(code: string, uid: nat): seq<Effect> {
    [MakeHome(code), OwnHome(code, uid), CloseHome(code)]
  }

  function AccountEffects(code: string, uid: nat, enabled: bool): seq<Effect> {
    [EnsureGroup(code, uid), EnsureUnixAccount(code, uid, enabled)]
    + HomeEffects(code, uid)
    + [SetShell(code, enabled), SetPassword(code, enabled)]
  }

  function KeyContent(key: string, enabled: bool): string {
    if enabled then key + "\n" else ""
  }

  function KeyEffects(code: string, key: string, enabled: bool): seq<Effect> {
    [TruncateKey(code), WriteKey(code, KeyContent(key, enabled))]
  }

  function UserEffects(code: string, e: Entry): seq<Effect> {
    AccountEffects(code, e.uid, e.enabled) + KeyEffects(code, e.key, e.enabled)
  }

  /** Reconciliation goes through the registered users in some order. */
  function ReconcileEffects(users: map<string, Entry>, order: seq<string>): seq<Effect>
    requires forall code :: code in order ==> code in users
  {
    if order == [] then [] else UserEffects(order[0], users[order[0]]) + ReconcileEffects(users, order[1..])
  }

  ghost predicate IsOrderOf(order: seq<string>, users: map<string, Entry>) {
    && (forall code :: code in order <==> code in users)
    && (forall i, j :: 0 <= i < j < |order| ==> order[i] != order[j])
  }

  // ----- operations -----

  predicate ValidCode(code: string) {
    && 1 <= |code| <= 32
    && (code[0] == '_' || 'a' <= code[0] <= 'z')
    && forall i :: 1 <= i < |code| ==>
         code[i] == '_' || code[i] == '-' || 'a' <= code[i] <= 'z' || '0' <= code[i] <= '9'
  }

  predicate ValidKey(key: string) {
    "ssh-ed25519 " <= key || "ecdsa-" <= key || "ssh-rsa " <= key
  }

  /** Keys are given without surrounding white space. `code` of the last two requests is the
      entry that was found for the agent; `order` is the iteration order of the registry. */
  datatype Request =
    | EnsureUser(agentId: int, code: string, key: string)
    | SetEnabled(agentId: int, code: string, enabled: bool)
    | RotateKey(agentId: int, code: string, key: string)
    | Reconcile(order: seq<string>)

  predicate HasAgent(r: Registry, code: string, agentId: int) {
    code in r.users && r.users[code].agentId == agentId
  }

  /** What the registry will say, or nothing when the request is refused. */
  function Intent(m: Machine, q: Request): Option<Registry> {
    var r := m.registry;
    match q
    case EnsureUser(agentId, code, key) =>
      if !ValidCode(code) || !ValidKey(key) then None
      else if code in r.users then
        if r.users[code].agentId != agentId then None
        else Some(r.(users := r.users[code := Entry(r.users[code].uid, agentId, key, true)]))
      else if code in m.accounts || code in m.groups || code in m.system then None
      else Some(Registry(r.nextUid + 1, r.users[code := Entry(r.nextUid, agentId, key, true)]))
    case SetEnabled(agentId, code, enabled) =>
      if !HasAgent(r, code, agentId) then None
      else Some(r.(users := r.users[code := r.users[code].(enabled := enabled)]))
    case RotateKey(agentId, code, key) =>
      if !HasAgent(r, code, agentId) || !ValidKey(key) then None
      else Some(r.(users := r.users[code := r.users[code].(key := key)]))
    case Reconcile(_) => Some(r)
  }

  ghost predicate Acceptable(m: Machine, q: Request) {
    Intent(m, q).Some? && (q.Reconcile? ==> IsOrderOf(q.order, m.registry.users))
  }

  /** The effects of an accepted request, in order. */
  function Plan(m: Machine, q: Request): seq<Effect>
    requires Intent(m, q).Some?
    requires q.Reconcile? ==> forall code :: code in q.order ==> code in m.registry.users
  {
    var r := Intent(m, q).value;
    match q
    case EnsureUser(_, code, _) => [Save(r)] + UserEffects(code, r.users[code])
    case SetEnabled(_, code, _) => [Save(r)] + UserEffects(code, r.users[code])
    case RotateKey(_, code, key) => [Save(r)] + KeyEffects(code, key, r.users[code].enabled)
    case Reconcile(order) => ReconcileEffects(r.users, order)
  }

  // ----- the invariant -----

  ghost predicate RegistryOk(r: Registry, system: set<string>) {
    && UID_START <= r.nextUid
    && (forall code :: code in r.users ==> UID_START <= r.users[code].uid < r.nextUid && code !in system)
    && (forall a, b :: a in r.users && b in r.users && r.users[a].uid == r.users[b].uid ==> a == b)
  }

  /** The tables hold nothing but what the registry announced, under the registered UID. A
      home that was just made may still belong to root. */
  ghost predicate TablesOk(m: Machine) {
    var users := m.registry.users;
    && (forall code :: code in m.groups ==> code in users && m.groups[code] == users[code].uid)
    && (forall code :: code in m.accounts ==>
          code in users && m.accounts[code].uid == m.accounts[code].gid == users[code].uid)
    && (forall code :: code in m.homes ==> code in users && m.homes[code].owner in {ROOT, users[code].uid})
    && (forall code :: code in m.keys ==> code in users)
  }

  ghost predicate Inv(m: Machine) {
    RegistryOk(m.registry, m.system) && TablesOk(m)
  }

  /** No user is dropped and no UID changes. */
  ghost predicate Extends(r: Registry, s: Registry) {
    && r.nextUid <= s.nextUid
    && forall code :: code in r.users ==> code in s.users && s.users[code].uid == r.users[code].uid
  }

  ghost predicate EffectOk(m: Machine, e: Effect) {
    var users := m.registry.users;
    match e
    case Save(r) => RegistryOk(r, m.system) && Extends(m.registry, r)
    case EnsureGroup(code, uid) => code in users && users[code].uid == uid
    case EnsureUnixAccount(code, uid, _) => code in users && users[code].uid == uid
    case OwnHome(code, uid) => code in users && users[code].uid == uid
    case _ => e.code in users
  }

  lemma SaveKeepsTables(m: Machine, r: Registry)
    requires TablesOk(m) && Extends(m.registry, r)
    ensures TablesOk(m.(registry := r))
  {
  }

  lemma EffectKeepsTables(m: Machine, e: Effect)
    requires TablesOk(m) && !e.Save? && EffectOk(m, e)
    ensures TablesOk(Apply(m, e))
  {
    match e
    case EnsureGroup(_, _) =>
    case EnsureUnixAccount(_, _, _) =>
    case _ =>
  }

  lemma ApplyKeepsInv(m: Machine, e: Effect)
    requires Inv(m) && EffectOk(m, e)
    ensures Inv(Apply(m, e)) && Extends(m.registry, Apply(m, e).registry)
    ensures Apply(m, e).system == m.system
  {
    if e.Save? {
      SaveKeepsTables(m, e.registry);
    } else {
      EffectKeepsTables(m, e);
      assert Apply(m, e).registry == m.registry;
    }
  }

  /** Every effect of the list is admissible when its turn comes. */
  ghost predicate Ready(m: Machine, es: seq<Effect>)
    decreases |es|
  {
    es != [] ==> EffectOk(m, es[0]) && Ready(Apply(m, es[0]), es[1..])
  }

  ghost predicate AboutUser(users: map<string, Entry>, e: Effect) {
    !e.Save? && e.code in users && (e.EnsureGroup? || e.EnsureUnixAccount? || e.OwnHome? ==> e.uid == users[e.code].uid)
  }

  lemma {:induction false} UserEffectsReady(m: Machine, es: seq<Effect>)
    requires forall k :: 0 <= k < |es| ==> AboutUser(m.registry.users, es[k])
    ensures Ready(m, es)
    decreases |es|
  {
    if es != [] {
      assert AboutUser(m.registry.users, es[0]);
      UserEffectsReady(Apply(m, es[0]), es[1..]);
    }
  }

  lemma {:induction false} ReconcileAboutUsers(users: map<string, Entry>, order: seq<string>, k: nat)
    requires forall code :: code in order ==> code in users
    requires k < |ReconcileEffects(users, order)|
    ensures AboutUser(users, ReconcileEffects(users, order)[k])
    decreases |order|
  {
    var first := UserEffects(order[0], users[order[0]]);
    if |first| <= k {
      ReconcileAboutUsers(users, order[1..], k - |first|);
    }
  }

  /** Changing an entry without its UID, or adding one under the next UID. */
  lemma EntryOk(r: Registry, system: set<string>, code: string, e: Entry)
    requires RegistryOk(r, system) && code in r.users && e.uid == r.users[code].uid
    ensures RegistryOk(r.(users := r.users[code := e]), system)
  {
  }

  lemma NewEntryOk(r: Registry, system: set<string>, code: string, e: Entry)
    requires RegistryOk(r, system) && code !in r.users && code !in system && e.uid == r.nextUid
    ensures RegistryOk(Registry(r.nextUid + 1, r.users[code := e]), system)
  {
  }

  lemma IntentOk(m: Machine, q: Request)
    requires Inv(m) && Intent(m, q).Some?
    ensures RegistryOk(Intent(m, q).value, m.system) && Extends(m.registry, Intent(m, q).value)
  {
    if !q.Reconcile? {
      var e := Intent(m, q).value.users[q.code];
      if q.code in m.registry.users {
        EntryOk(m.registry, m.system, q.code, e);
      } else {
        NewEntryOk(m.registry, m.system, q.code, e);
      }
    }
  }

  lemma ReconcileReady(m: Machine, order: seq<string>)
    requires forall code :: code in order ==> code in m.registry.users
    ensures Ready(m, ReconcileEffects(m.registry.users, order))
  {
    var es := ReconcileEffects(m.registry.users, order);
    forall k | 0 <= k < |es|
      ensures AboutUser(m.registry.users, es[k])
    {
      ReconcileAboutUsers(m.registry.users, order, k);
    }
    UserEffectsReady(m, es);
  }

  /** Saving an admissible registry and then working on one of its users. */
  lemma SaveThenReady(m: Machine, r: Registry, es: seq<Effect>)
    requires EffectOk(m, Save(r))
    requires forall k :: 0 <= k < |es| ==> AboutUser(r.users, es[k])
    ensures Ready(m, [Save(r)] + es)
  {
    UserEffectsReady(m.(registry := r), es);
    assert ([Save(r)] + es)[1..] == es;
  }

  lemma UserEffectsAbout(users: map<string, Entry>, code: string)
    requires code in users
    ensures forall k :: 0 <= k < 9 ==> AboutUser(users, UserEffects(code, users[code])[k])
  {
  }

  lemma PlanReady(m: Machine, q: Request)
    requires Inv(m) && Acceptable(m, q)
    ensures Ready(m, Plan(m, q))
  {
    IntentOk(m, q);
    var r := Intent(m, q).value;
    if !q.Reconcile? {
      UserEffectsAbout(r.users, q.code);
    }
    match q
    case EnsureUser(_, code, _) => SaveThenReady(m, r, UserEffects(code, r.users[code]));
    case SetEnabled(_, code, _) => SaveThenReady(m, r, UserEffects(code, r.users[code]));
    case RotateKey(_, code, key) => SaveThenReady(m, r, KeyEffects(code, key, r.users[code].enabled));
    case Reconcile(order) => ReconcileReady(m, order);
  }

  // ----- every run, with crashes anywhere -----

  /** The machine and the effects that the operation in progress has still to apply. The
      registry lock admits one operation at a time. */
  datatype Host = Host(machine: Machine, todo: seq<Effect>)

  /** An effect may fail, which ends the operation. A crash ends it too, and a container
      that is created anew may have lost groups and accounts. */
  datatype Step =
    | Begin(request: Request)
    | RunEffect
    | FailEffect
    | Crash(groupsLeft: set<string>, accountsLeft: set<string>)

  ghost predicate Enabled(h: Host, s: Step) {
    match s
    case Begin(q) => h.todo == [] && Acceptable(h.machine, q)
    case RunEffect => h.todo != []
    case FailEffect => h.todo != []
    case Crash(_, _) => true
  }

  function Keep<T>(m: map<string, T>, names: set<string>): map<string, T> {
    map name | name in m && name in names :: m[name]
  }

  ghost function Next(h: Host, s: Step): Host
    requires Enabled(h, s)
  {
    match s
    case Begin(q) => h.(todo := Plan(h.machine, q))
    case RunEffect => Host(Apply(h.machine, h.todo[0]), h.todo[1..])
    case FailEffect => h.(todo := [])
    case Crash(groups, accounts) =>
      Host(h.machine.(groups := Keep(h.machine.groups, groups), accounts := Keep(h.machine.accounts, accounts)), [])
  }

  ghost predicate HostInv(h: Host) {
    Inv(h.machine) && Ready(h.machine, h.todo)
  }

  lemma StepKeepsInv(h: Host, s: Step)
    requires HostInv(h) && Enabled(h, s)
    ensures HostInv(Next(h, s)) && Extends(h.machine.registry, Next(h, s).machine.registry)
  {
    match s
    case Begin(q) => PlanReady(h.machine, q);
    case RunEffect => ApplyKeepsInv(h.machine, h.todo[0]);
    case _ =>
  }

  ghost predicate IsRun(h: Host, steps: seq<Step>)
    decreases |steps|
  {
    steps != [] ==> Enabled(h, steps[0]) && IsRun(Next(h, steps[0]), steps[1..])
  }

  ghost function After(h: Host, steps: seq<Step>): Host
    requires IsRun(h, steps)
    decreases |steps|
  {
    if steps == [] then h else After(Next(h, steps[0]), steps[1..])
  }

  /** Through any number of operations, failures, crashes and restarts UIDs stay distinct
      and below the next one, and a code keeps the UID it was given. */
  lemma {:induction false} RunKeepsInv(h: Host, steps: seq<Step>)
    requires HostInv(h) && IsRun(h, steps)
    ensures HostInv(After(h, steps)) && Extends(h.machine.registry, After(h, steps).machine.registry)
    decreases |steps|
  {
    if steps != [] {
      StepKeepsInv(h, steps[0]);
      RunKeepsInv(Next(h, steps[0]), steps[1..]);
    }
  }

  function FirstBoot(system: set<string>): Host {
    Host(Machine(system, Registry(UID_START, map[]), map[], map[], map[], map[]), [])
  }

  /** From the first boot on: whatever happens first and whatever follows, UIDs are distinct,
      below the next one and never reassigned. */
  lemma UidsForever(system: set<string>, first: seq<Step>, later: seq<Step>, a: string, b: string)
    requires IsRun(FirstBoot(system), first) && IsRun(After(FirstBoot(system), first), later)
    requires a in After(FirstBoot(system), first).machine.registry.users
    requires b in After(After(FirstBoot(system), first), later).machine.registry.users
    ensures var before := After(FirstBoot(system), first).machine.registry;
            var after := After(After(FirstBoot(system), first), later).machine.registry;
            && a in after.users && after.users[a].uid == before.users[a].uid
            && UID_START <= after.users[b].uid < after.nextUid
            && (after.users[b].uid == before.users[a].uid ==> a == b)
  {
    RunKeepsInv(FirstBoot(system), first);
    RunKeepsInv(After(FirstBoot(system), first), later);
  }

  // ----- reconciliation -----

  /** The row of one user, as the registry describes it. */
  function Fixed(m: Machine, code: string): Machine
    requires code in m.registry.users
  {
    var e := m.registry.users[code];
    m.(groups := m.groups[code := e.uid],
       accounts := m.accounts[code := Account(e.uid, e.uid, e.enabled, !e.enabled)],
       homes := m.homes[code := Home(e.uid, true)],
       keys := m.keys[code := KeyContent(e.key, e.enabled)])
  }

  /** The tables exactly as the registry describes them. */
  function Projection(m: Machine): Machine {
    var users := m.registry.users;
    m.(groups := map code | code in users :: users[code].uid,
       accounts := map code | code in users ::
                     Account(users[code].uid, users[code].uid, users[code].enabled, !users[code].enabled),
       homes := map code | code in users :: Home(users[code].uid, true),
       keys := map code | code in users :: KeyContent(users[code].key, users[code].enabled))
  }

  lemma {:induction false} ApplyAppend(m: Machine, a: seq<Effect>, b: seq<Effect>)
    ensures ApplyAll(m, a + b) == ApplyAll(ApplyAll(m, a), b)
    decreases |a|
  {
    if a == [] {
      assert a + b == b;
    } else {
      ApplyAppend(Apply(m, a[0]), a[1..], b);
      assert (a + b)[1..] == a[1..] + b;
    }
  }

  lemma ApplyPair(m: Machine, a: Effect, b: Effect)
    ensures ApplyAll(m, [a, b]) == Apply(Apply(m, a), b)
  {
    assert [a, b][1..] == [b] && [b][1..] == [];
    assert ApplyAll(Apply(m, a), [b]) == Apply(Apply(m, a), b);
  }

  /** The three groups of effects, one after the other. */
  lemma AccountEffectsSplit(m: Machine, code: string, uid: nat, enabled: bool)
    ensures var added := Apply(Apply(m, EnsureGroup(code, uid)), EnsureUnixAccount(code, uid, enabled));
            var housed := ApplyAll(added, HomeEffects(code, uid));
            ApplyAll(m, AccountEffects(code, uid, enabled))
            == Apply(Apply(housed, SetShell(code, enabled)), SetPassword(code, enabled))
  {
    var add, login := [EnsureGroup(code, uid), EnsureUnixAccount(code, uid, enabled)],
                      [SetShell(code, enabled), SetPassword(code, enabled)];
    ApplyAppend(m, add + HomeEffects(code, uid), login);
    ApplyAppend(m, add, HomeEffects(code, uid));
    ApplyPair(m, add[0], add[1]);
    ApplyPair(ApplyAll(ApplyAll(m, add), HomeEffects(code, uid)), login[0], login[1]);
  }

  lemma GroupFix(m: Machine, code: string, uid: nat)
    requires code !in m.system && (code in m.groups ==> m.groups[code] == uid)
    ensures Apply(m, EnsureGroup(code, uid)) == m.(groups := m.groups[code := uid])
  {
    if code in m.groups {
      assert m.groups[code := uid] == m.groups;
    }
  }

  /** Whoever owned the home, it ends up private and owned by its user. */
  lemma HomeFix(m: Machine, code: string, uid: nat)
    ensures ApplyAll(m, HomeEffects(code, uid)) == m.(homes := m.homes[code := Home(uid, true)])
  {
    var es := HomeEffects(code, uid);
    var made := Apply(m, es[0]);
    var owned := made.homes[code].(owner := uid);
    assert es[1..] == [es[1], es[2]];
    ApplyPair(made, es[1], es[2]);
    assert made.homes[code := owned][code := Home(uid, true)] == m.homes[code := Home(uid, true)];
  }

  lemma AccountFix(m: Machine, code: string, uid: nat, enabled: bool) returns (a: Account)
    requires code !in m.system && (code in m.accounts ==> m.accounts[code].uid == m.accounts[code].gid == uid)
    ensures a.uid == a.gid == uid
    ensures var added := Apply(m, EnsureUnixAccount(code, uid, enabled));
            && added == m.(accounts := m.accounts[code := a], homes := added.homes)
            && added.homes[code := Home(uid, true)] == m.homes[code := Home(uid, true)]
  {
    if code in m.accounts {
      a := m.accounts[code];
      assert m.accounts[code := a] == m.accounts;
    } else {
      a := Account(uid, uid, enabled, true);
    }
  }

  lemma LoginFix(m: Machine, code: string, accounts: map<string, Account>, a: Account, enabled: bool)
    requires m.accounts == accounts[code := a]
    ensures Apply(Apply(m, SetShell(code, enabled)), SetPassword(code, enabled))
         == m.(accounts := accounts[code := Account(a.uid, a.gid, enabled, !enabled)])
  {
    var b := a.(loginShell := enabled);
    var c := b.(locked := !enabled);
    assert accounts[code := a][code := b][code := c] == accounts[code := c];
  }

  lemma AccountEffectsFix(m: Machine, code: string)
    requires Inv(m) && code in m.registry.users
    ensures var e := m.registry.users[code];
            ApplyAll(m, AccountEffects(code, e.uid, e.enabled)) == Fixed(m, code).(keys := m.keys)
  {
    var e := m.registry.users[code];
    AccountEffectsSplit(m, code, e.uid, e.enabled);
    GroupFix(m, code, e.uid);
    var m1 := m.(groups := m.groups[code := e.uid]);
    var a := AccountFix(m1, code, e.uid, e.enabled);
    HomeFix(Apply(m1, EnsureUnixAccount(code, e.uid, e.enabled)), code, e.uid);
    LoginFix(m1.(accounts := m.accounts[code := a], homes := m.homes[code := Home(e.uid, true)]),
             code, m.accounts, a, e.enabled);
  }

  lemma KeyEffectsFix(m: Machine, code: string, key: string, enabled: bool)
    ensures ApplyAll(m, KeyEffects(code, key, enabled)) == m.(keys := m.keys[code := KeyContent(key, enabled)])
  {
    var es := KeyEffects(code, key, enabled);
    var m1 := Apply(m, es[0]);
    assert es[1..] == [es[1]];
    assert ApplyAll(m1, es[1..]) == Apply(m1, es[1]);
    assert m.keys[code := ""][code := KeyContent(key, enabled)] == m.keys[code := KeyContent(key, enabled)];
  }

  /** The effects of one user complete its row, whatever part of it was there. */
  lemma UserEffectsFix(m: Machine, code: string)
    requires Inv(m) && code in m.registry.users
    ensures ApplyAll(m, UserEffects(code, m.registry.users[code])) == Fixed(m, code)
  {
    var e := m.registry.users[code];
    ApplyAppend(m, AccountEffects(code, e.uid, e.enabled), KeyEffects(code, e.key, e.enabled));
    AccountEffectsFix(m, code);
    KeyEffectsFix(Fixed(m, code).(keys := m.keys), code, e.key, e.enabled);
  }

  lemma FixedInv(m: Machine, code: string)
    requires Inv(m) && code in m.registry.users
    ensures Inv(Fixed(m, code))
  {
    FixedTables(m, code);
    assert Fixed(m, code).registry == m.registry && Fixed(m, code).system == m.system;
  }

  lemma FixedTables(m: Machine, code: string)
    requires TablesOk(m) && code in m.registry.users
    ensures TablesOk(Fixed(m, code))
  {
    var f := Fixed(m, code);
    assert forall c :: c in f.groups ==> c == code || (c in m.groups && f.groups[c] == m.groups[c]);
    assert forall c :: c in f.accounts ==> c == code || (c in m.accounts && f.accounts[c] == m.accounts[c]);
    assert forall c :: c in f.homes ==> c == code || (c in m.homes && f.homes[c] == m.homes[c]);
    assert forall c :: c in f.keys ==> c == code || c in m.keys;
  }

  /** Away from `rest` the tables already agree with the projection. */
  ghost predicate AgreesExcept(m: Machine, rest: seq<string>) {
    var p := Projection(m);
    forall code :: code in m.registry.users && code !in rest ==>
      && code in m.groups && m.groups[code] == p.groups[code]
      && code in m.accounts && m.accounts[code] == p.accounts[code]
      && code in m.homes && m.homes[code] == p.homes[code]
      && code in m.keys && m.keys[code] == p.keys[code]
  }

  lemma SameMap<T>(a: map<string, T>, b: map<string, T>)
    requires (forall k :: k in a <==> k in b) && (forall k :: k in a ==> a[k] == b[k])
    ensures a == b
  {
  }

  lemma AgreesEverywhere(m: Machine)
    requires TablesOk(m) && AgreesExcept(m, [])
    ensures m == Projection(m)
  {
    var p := Projection(m);
    SameMap(m.groups, p.groups);
    SameMap(m.accounts, p.accounts);
    SameMap(m.homes, p.homes);
    SameMap(m.keys, p.keys);
  }

  lemma FixedAgrees(m: Machine, order: seq<string>)
    requires order != [] && order[0] in m.registry.users && AgreesExcept(m, order)
    ensures AgreesExcept(Fixed(m, order[0]), order[1..])
    ensures Projection(Fixed(m, order[0])) == Projection(m)
  {
    assert order == [order[0]] + order[1..];
  }

  lemma {:induction false} ReconcileLoop(m: Machine, order: seq<string>)
    requires Inv(m) && AgreesExcept(m, order)
    requires forall code :: code in order ==> code in m.registry.users
    ensures ApplyAll(m, ReconcileEffects(m.registry.users, order)) == Projection(m)
    decreases |order|
  {
    var users := m.registry.users;
    if order == [] {
      AgreesEverywhere(m);
    } else {
      ApplyAppend(m, UserEffects(order[0], users[order[0]]), ReconcileEffects(users, order[1..]));
      UserEffectsFix(m, order[0]);
      FixedInv(m, order[0]);
      FixedAgrees(m, order);
      ReconcileLoop(Fixed(m, order[0]), order[1..]);
    }
  }

  /** From every state that a run with crashes can reach, a completed reconciliation makes
      the tables equal the registry's projection, in whatever order it goes. */
  lemma ReconcileRepairs(h: Host, steps: seq<Step>, order: seq<string>)
    requires HostInv(h) && IsRun(h, steps)
    requires IsOrderOf(order, After(h, steps).machine.registry.users)
    ensures var m := After(h, steps).machine;
            ApplyAll(m, ReconcileEffects(m.registry.users, order)) == Projection(m)
  {
    RunKeepsInv(h, steps);
    ReconcileLoop(After(h, steps).machine, order);
  }

  /** Running it again changes nothing. */
  lemma ReconcileIdempotent(m: Machine, a: seq<string>, b: seq<string>)
    requires Inv(m) && IsOrderOf(a, m.registry.users) && IsOrderOf(b, m.registry.users)
    ensures var once := ApplyAll(m, ReconcileEffects(m.registry.users, a));
            Inv(once) && ApplyAll(once, ReconcileEffects(m.registry.users, b)) == once
  {
    ReconcileLoop(m, a);
    ReconcileLoop(Projection(m), b);
  }

  /** A completed request leaves the row of its user exactly as the new registry describes
      it, also when an earlier attempt stopped half way; key rotation does so for the key. */
  lemma RequestCompletes(m: Machine, q: Request)
    requires Inv(m) && Acceptable(m, q) && !q.Reconcile?
    ensures var saved := m.(registry := Intent(m, q).value);
            ApplyAll(m, Plan(m, q))
            == if q.RotateKey? then saved.(keys := Fixed(saved, q.code).keys) else Fixed(saved, q.code)
  {
    IntentOk(m, q);
    var r := Intent(m, q).value;
    var saved := m.(registry := r);
    SaveKeepsTables(m, r);
    var es := Plan(m, q);
    assert ApplyAll(m, es) == ApplyAll(saved, es[1..]);
    if q.RotateKey? {
      assert es[1..] == KeyEffects(q.code, q.key, r.users[q.code].enabled);
      KeyEffectsFix(saved, q.code, q.key, r.users[q.code].enabled);
    } else {
      assert es[1..] == UserEffects(q.code, r.users[q.code]);
      UserEffectsFix(saved, q.code);
    }
  }

  // ----- what the tables say of a user -----

  /** The key file holds the key of an enabled user, and nothing for a disabled one. */
  ghost predicate KeyServes(m: Machine, code: string) {
    && code in m.registry.users && code in m.keys
    && (m.registry.users[code].enabled ==> m.keys[code] == m.registry.users[code].key + "\n")
    && (!m.registry.users[code].enabled ==> m.keys[code] == "")
  }

  /** Group, account, home and key file are those of the registered user: an enabled one has a
      shell and is not locked, a disabled one has none and is locked. */
  ghost predicate RowServes(m: Machine, code: string) {
    && KeyServes(m, code) && code in m.groups && code in m.accounts && code in m.homes
    && var e := m.registry.users[code];
       && m.groups[code] == m.accounts[code].uid == m.accounts[code].gid == m.homes[code].owner == e.uid
       && m.homes[code].private
       && (e.enabled ==> m.accounts[code].loginShell && !m.accounts[code].locked)
       && (!e.enabled ==> !m.accounts[code].loginShell && m.accounts[code].locked)
  }

  ghost predicate SameEntry<T(!new)>(a: map<string, T>, b: map<string, T>, code: string) {
    (code in a <==> code in b) && (code in a ==> a[code] == b[code])
  }

  ghost predicate SameRow(a: Machine, b: Machine, code: string) {
    && SameEntry(a.registry.users, b.registry.users, code) && SameEntry(a.groups, b.groups, code)
    && SameEntry(a.accounts, b.accounts, code) && SameEntry(a.homes, b.homes, code) && SameEntry(a.keys, b.keys, code)
  }

  lemma FixedServes(m: Machine, code: string)
    requires code in m.registry.users
    ensures RowServes(Fixed(m, code), code)
    ensures forall c :: c != code ==> SameRow(m, Fixed(m, code), c)
  {
  }

  /** The registry says what was asked of `code`. */
  ghost predicate Asked(r: Registry, q: Request, t: Registry)
    requires !q.Reconcile?
  {
    && q.code in t.users
    && (q.EnsureUser? ==> t.users[q.code] == Entry(t.users[q.code].uid, q.agentId, q.key, true))
    && (q.SetEnabled? ==> q.code in r.users && t.users[q.code] == r.users[q.code].(enabled := q.enabled))
    && (q.RotateKey? ==> q.code in r.users && t.users[q.code] == r.users[q.code].(key := q.key))
    && (q.code in r.users ==> t.users[q.code].uid == r.users[q.code].uid && t.nextUid == r.nextUid)
    && (q.code !in r.users ==> t.users[q.code].uid == r.nextUid && t.nextUid == r.nextUid + 1)
    && (forall c :: c != q.code ==> SameEntry(r.users, t.users, c))
  }

  /** What an accepted request writes into the registry. */
  lemma IntentMeaning(m: Machine, q: Request)
    requires Intent(m, q).Some? && !q.Reconcile?
    ensures Asked(m.registry, q, Intent(m, q).value)
  {
  }

  /** Which requests are refused. */
  lemma RefusedMeaning(m: Machine, agentId: int, code: string, key: string, enabled: bool)
    ensures Intent(m, EnsureUser(agentId, code, key)).None? <==>
              || !ValidCode(code) || !ValidKey(key)
              || (code in m.registry.users && m.registry.users[code].agentId != agentId)
              || (code !in m.registry.users && (code in m.accounts || code in m.groups || code in m.system))
    ensures Intent(m, SetEnabled(agentId, code, enabled)).None? <==>
              code !in m.registry.users || m.registry.users[code].agentId != agentId
    ensures Intent(m, RotateKey(agentId, code, key)).None? <==>
              code !in m.registry.users || m.registry.users[code].agentId != agentId || !ValidKey(key)
  {
  }

  /** What a completed request leaves: the registry says what was asked, the tables of its user
      agree, and no other user is touched. */
  ghost predicate Served(m: Machine, q: Request, after: Machine)
    requires !q.Reconcile?
  {
    && Asked(m.registry, q, after.registry)
    && (q.EnsureUser? || q.SetEnabled? ==> RowServes(after, q.code))
    && (q.RotateKey? ==>
          KeyServes(after, q.code) && after.groups == m.groups && after.accounts == m.accounts
              && after.homes == m.homes)
    && (forall c :: c != q.code ==> SameRow(m, after, c))
  }

  lemma KeyFixedServes(m: Machine, code: string)
    requires code in m.registry.users
    ensures var after := m.(keys := Fixed(m, code).keys);
            KeyServes(after, code) && forall c :: c != code ==> SameRow(m, after, c)
  {
  }

  lemma RegistryRows(m: Machine, r: Registry, after: Machine, c: string)
    requires SameEntry(m.registry.users, r.users, c) && SameRow(m.(registry := r), after, c)
    ensures SameRow(m, after, c)
  {
  }

  lemma RequestServes(m: Machine, q: Request)
    requires Inv(m) && Acceptable(m, q) && !q.Reconcile?
    ensures Served(m, q, ApplyAll(m, Plan(m, q)))
  {
    RequestCompletes(m, q);
    IntentMeaning(m, q);
    var r := Intent(m, q).value;
    var saved, after := m.(registry := r), ApplyAll(m, Plan(m, q));
    FixedServes(saved, q.code);
    KeyFixedServes(saved, q.code);
    forall c | c != q.code
      ensures SameRow(m, after, c)
    {
      RegistryRows(m, r, after, c);
    }
  }

  /** After a completed reconciliation the tables of every registered user agree with the
      registry, which is as it was, and there are no others. */
  lemma ReconcileServes(m: Machine, order: seq<string>, code: string)
    requires Inv(m) && IsOrderOf(order, m.registry.users)
    ensures var after := ApplyAll(m, ReconcileEffects(m.registry.users, order));
            && after.registry == m.registry && after.system == m.system
            && (code in m.registry.users ==> RowServes(after, code))
            && (code !in m.registry.users ==>
                  code !in after.groups && code !in after.accounts && code !in after.homes && code !in after.keys)
  {
    ReconcileLoop(m, order);
    ProjectionServes(m, code);
  }

  lemma ProjectionServes(m: Machine, code: string)
    ensures var p := Projection(m);
            && (code in m.registry.users ==> RowServes(p, code))
            && (code !in m.registry.users ==>
                  code !in p.groups && code !in p.accounts && code !in p.homes && code !in p.keys)
  {
  }
}
