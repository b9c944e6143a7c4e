/** The executor daemon: the registry file and the system tables as fields, and the guarded
    operations that change them. */
module Executor {
  import opened Wrappers
  import opened AccountRegistry

  class Daemon {
    const system: set<string>
    var registry: Registry
    var groups: map<string, nat>
    var accounts: map<string, Account>
    var homes: map<string, Home>
    var keys: map<string, string>

    ghost function View(): Machine
      reads this
    {
      Machine(system, registry, groups, accounts, homes, keys)
    }

    constructor (system: set<string>)
      ensures View() == FirstBoot(system).machine && Inv(View())
    {
      this.system := system;
      registry := Registry(UID_START, map[]);
      groups, accounts, homes, keys := map[], map[], map[], map[];
    }

    method EnsureAccount(code: string, uid: nat, enabled: bool)
      modifies this`groups, this`accounts, this`homes
      ensures View() == ApplyAll(old(View()), AccountEffects(code, uid, enabled))
    {
      AccountEffectsSplit(View(), code, uid, enabled);
      AddEntries(code, uid, enabled);
      OpenHome(code, uid);
      SetLogin(code, enabled);
    }

    method AddEntries(code: string, uid: nat, enabled: bool)
      modifies this`groups, this`accounts, this`homes
      ensures View() == Apply(Apply(old(View()), EnsureGroup(code, uid)), EnsureUnixAccount(code, uid, enabled))
    {
      if code !in groups && code !in system {
        groups := groups[code := uid];
      }
      if code !in accounts && code !in system {
        accounts := accounts[code := Account(uid, uid, enabled, true)];
        if code !in homes {
          homes := homes[code := Home(uid, false)];
        }
      }
    }

    /** Whoever owned the home, it ends up private and owned by its user. */
    method OpenHome(code: string, uid: nat)
      modifies this`homes
      ensures View() == ApplyAll(old(View()), HomeEffects(code, uid))
      ensures code in homes && homes[code] == Home(uid, true)
    {
      HomeFix(View(), code, uid);
      if code !in homes { homes := homes[code := Home(ROOT, true)]; }
      homes := homes[code := homes[code].(owner := uid)];
      homes := homes[code := homes[code].(private := true)];
      assert homes == old(homes)[code := Home(uid, true)];
    }

    method SetLogin(code: string, enabled: bool)
      modifies this`accounts
      ensures View() == Apply(Apply(old(View()), SetShell(code, enabled)), SetPassword(code, enabled))
    {
      if code in accounts {
        accounts := accounts[code := accounts[code].(loginShell := enabled)];
        accounts := accounts[code := accounts[code].(locked := !enabled)];
      }
    }

    method WriteAuthorizedKey(code: string, key: string, enabled: bool)
      modifies this`keys
      ensures View() == ApplyAll(old(View()), KeyEffects(code, key, enabled))
      ensures enabled ==> keys == old(keys)[code := key + "\n"]
      ensures !enabled ==> keys == old(keys)[code := ""]
    {
      KeyEffectsFix(View(), code, key, enabled);
      keys := keys[code := KeyContent(key, enabled)];
    }

    /** Restores every registered user, in the order in which the registry lists them. */
    method ReconcileAll(order: seq<string>)
      requires Inv(View()) && IsOrderOf(order, registry.users)
      modifies this
      ensures View() == Projection(old(View())) && Inv(View()) && registry == old(registry)
      ensures forall code :: code in registry.users ==> RowServes(View(), code)
    {
      for i := 0 to |order|
        invariant registry == old(registry) && Inv(View())
        invariant Projection(View()) == Projection(old(View()))
        invariant AgreesExcept(View(), order[i..])
      {
        var code := order[i];
        var entry := registry.users[code];
        ghost var before := View();
        assert order[i..][0] == code && order[i..][1..] == order[i + 1..];
        ApplyAppend(before, AccountEffects(code, entry.uid, entry.enabled), KeyEffects(code, entry.key, entry.enabled));
        UserEffectsFix(before, code);
        FixedInv(before, code);
        FixedAgrees(before, order[i..]);
        EnsureAccount(code, entry.uid, entry.enabled);
        WriteAuthorizedKey(code, entry.key, entry.enabled);
        assert View() == Fixed(before, code);
      }
      AgreesEverywhere(View());
      forall code | code in registry.users
        ensures RowServes(View(), code)
      {
        ProjectionServes(View(), code);
      }
    }

    /** The registry with the user registered or its key renewed, unless the name belongs to
        someone else. */
    method RegisterUser(agentId: int, code: string, key: string) returns (r: Option<Registry>)
      requires Inv(View())
      ensures r == Intent(View(), EnsureUser(agentId, code, key))
      ensures r.Some? ==> Extends(registry, r.value) && RegistryOk(r.value, system)
      ensures r.Some? ==> code in r.value.users && r.value.users == registry.users[code := r.value.users[code]]
      ensures r.Some? && code in registry.users ==> r.value.nextUid == registry.nextUid
      ensures r.Some? && code !in registry.users ==>
                r.value.users[code].uid == registry.nextUid && r.value.nextUid == registry.nextUid + 1
      ensures code in registry.users && registry.users[code].agentId != agentId ==> r.None?
    {
      if Intent(View(), EnsureUser(agentId, code, key)).Some? {
        IntentOk(View(), EnsureUser(agentId, code, key));
      }
      if !ValidCode(code) || !ValidKey(key) { return None; }
      if code in registry.users {
        var entry := registry.users[code];
        if entry.agentId != agentId { return None; }
        return Some(registry.(users := registry.users[code := entry.(key := key, enabled := true)]));
      }
      if code in accounts || code in groups || code in system { return None; }
      var entry := Entry(registry.nextUid, agentId, key, true);
      return Some(Registry(registry.nextUid + 1, registry.users[code := entry]));
    }

    method EnsureUserRequest(agentId: int, code: string, key: string) returns (uid: Option<nat>)
      requires Inv(View())
      modifies this
      ensures Inv(View())
      ensures uid.None? <==> Intent(old(View()), EnsureUser(agentId, code, key)).None?
      ensures uid.None? ==> View() == old(View())
      ensures uid.Some? ==> View() == ApplyAll(old(View()), Plan(old(View()), EnsureUser(agentId, code, key)))
      ensures uid.Some? ==> code in registry.users && registry.users[code] == Entry(uid.value, agentId, key, true)
      ensures uid.Some? ==> Served(old(View()), EnsureUser(agentId, code, key), View())
    {
      ghost var before, request := View(), EnsureUser(agentId, code, key);
      var intent := RegisterUser(agentId, code, key);
      if intent.None? { return None; }
      registry := intent.value;
      var entry := registry.users[code];
      Complete(before, request, code, entry);
      EnsureAccount(code, entry.uid, true);
      WriteAuthorizedKey(code, key, true);
      RequestServes(before, request);
      uid := Some(entry.uid);
    }

    /** The first entry of the agent, in the order of the registry. */
    method EntryByAgent(order: seq<string>, agentId: int) returns (code: Option<string>)
      requires IsOrderOf(order, registry.users)
      ensures code.Some? ==> HasAgent(registry, code.value, agentId)
      ensures code.None? ==> forall c :: c in registry.users ==> registry.users[c].agentId != agentId
    {
      for i := 0 to |order|
        invariant forall j :: 0 <= j < i ==> registry.users[order[j]].agentId != agentId
      {
        if registry.users[order[i]].agentId == agentId { return Some(order[i]); }
      }
      forall c | c in registry.users
        ensures registry.users[c].agentId != agentId
      {
        assert c in order;
      }
      code := None;
    }

    method SetEnabledRequest(order: seq<string>, agentId: int, enabled: bool) returns (code: Option<string>)
      requires Inv(View()) && IsOrderOf(order, registry.users)
      modifies this
      ensures Inv(View())
      ensures code.None? ==> View() == old(View())
      ensures code.None? ==> forall c :: c in registry.users ==> registry.users[c].agentId != agentId
      ensures code.Some? ==> Acceptable(old(View()), SetEnabled(agentId, code.value, enabled))
      ensures code.Some? ==>
                View() == ApplyAll(old(View()), Plan(old(View()), SetEnabled(agentId, code.value, enabled)))
      ensures code.Some? ==> Served(old(View()), SetEnabled(agentId, code.value, enabled), View())
    {
      ghost var before := View();
      code := EntryByAgent(order, agentId);
      if code.None? { return; }
      var entry := registry.users[code.value].(enabled := enabled);
      registry := registry.(users := registry.users[code.value := entry]);
      Complete(before, SetEnabled(agentId, code.value, enabled), code.value, entry);
      EnsureAccount(code.value, entry.uid, enabled);
      WriteAuthorizedKey(code.value, entry.key, enabled);
      RequestServes(before, SetEnabled(agentId, code.value, enabled));
    }

    method RotateKeyRequest(order: seq<string>, agentId: int, key: string) returns (code: Option<string>)
      requires Inv(View()) && IsOrderOf(order, registry.users)
      modifies this
      ensures Inv(View())
      ensures code.None? ==> View() == old(View())
      ensures code.None? ==> !ValidKey(key) || forall c :: c in registry.users ==> registry.users[c].agentId != agentId
      ensures code.Some? ==> Acceptable(old(View()), RotateKey(agentId, code.value, key))
      ensures code.Some? ==> View() == ApplyAll(old(View()), Plan(old(View()), RotateKey(agentId, code.value, key)))
      ensures code.Some? ==> Served(old(View()), RotateKey(agentId, code.value, key), View())
    {
      ghost var before := View();
      code := EntryByAgent(order, agentId);
      if code.None? { return; }
      if !ValidKey(key) { return None; }
      var entry := registry.users[code.value].(key := key);
      registry := registry.(users := registry.users[code.value := entry]);
      Complete(before, RotateKey(agentId, code.value, key), code.value, entry);
      WriteAuthorizedKey(code.value, key, entry.enabled);
      RequestServes(before, RotateKey(agentId, code.value, key));
    }
  }

  /** What the effects of an accepted request come to after its registry is saved. */
  lemma Complete(m: Machine, q: Request, code: string, e: Entry)
    requires Inv(m) && Acceptable(m, q) && !q.Reconcile? && q.code == code
    requires Intent(m, q).value.users[code] == e
    ensures var saved := m.(registry := Intent(m, q).value);
            && Inv(ApplyAll(m, Plan(m, q)))
            && ApplyAll(m, Plan(m, q)) ==
               if q.RotateKey? then ApplyAll(saved, KeyEffects(code, e.key, e.enabled))
               else ApplyAll(ApplyAll(saved, AccountEffects(code, e.uid, e.enabled)),
                             KeyEffects(code, e.key, e.enabled))
  {
    var r := Intent(m, q).value;
    var saved := m.(registry := r);
    IntentOk(m, q);
    SaveKeepsTables(m, r);
    RequestCompletes(m, q);
    FixedInv(saved, code);
    ApplyAppend(saved, AccountEffects(code, e.uid, e.enabled), KeyEffects(code, e.key, e.enabled));
    UserEffectsFix(saved, code);
    KeyEffectsFix(saved, code, e.key, e.enabled);
  }
}
