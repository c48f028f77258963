/** Router users that belong to no customer row are never touched by the payment system. */
module PaymentStrangers {
  import opened Text
  import opened AccessTables
  import opened PaymentModel
  import opened PaymentAccess

  /** The lines whose name is not in `names`, in order. */
  function Others(device: seq<Entry>, names: set<Key>): (r: seq<Entry>)
    ensures forall e :: e in r <==> e in device && e.key !in names
  {
    if device == [] then [] else (if device[0].key in names then [] else [device[0]]) + Others(device[1..], names)
  }

  /** The router users that no customer row names. */
  function Strangers(w: World): seq<Entry> { Others(w.device, w.customers.Keys) }

  lemma {:induction false} OthersAppend(device: seq<Entry>, e: Entry, names: set<Key>)
    ensures Others(device + [e], names) == Others(device, names) + if e.key in names then [] else [e]
  {
    var all := device + [e];
    if device == [] {
      assert all == [e] && all[1..] == [];
    } else {
      assert all[0] == device[0] && all[1..] == device[1..] + [e];
      OthersAppend(device[1..], e, names);
    }
  }

  lemma {:induction false} OthersUpdate(device: seq<Entry>, i: nat, e: Entry, names: set<Key>)
    requires i < |device| && device[i].key == e.key && e.key in names
    ensures Others(device[i := e], names) == Others(device, names)
  {
    if i == 0 {
      assert device[i := e][1..] == device[1..];
    } else {
      assert device[i := e][1..] == device[1..][i - 1 := e];
      OthersUpdate(device[1..], i - 1, e, names);
    }
  }

  lemma {:induction false} OthersNewName(device: seq<Entry>, names: set<Key>, key: Key)
    requires forall e | e in device :: e.key != key
    ensures Others(device, names + {key}) == Others(device, names)
  {
    if device != [] {
      OthersNewName(device[1..], names, key);
      assert device[0] in device;
    }
  }

  lemma {:induction false} OthersWithout(device: seq<Entry>, names: set<Key>, key: Key)
    requires key in names
    ensures Others(Without(device, key), names - {key}) == Others(device, names)
  {
    if device != [] {
      var rest := Without(device[1..], key);
      OthersWithout(device[1..], names, key);
      if device[0].key == key {
        assert Without(device, key) == rest;
      } else {
        assert Without(device, key) == [device[0]] + rest && ([device[0]] + rest)[1..] == rest;
      }
    }
  }

  // ------------------------------------------------------------------ router calls

  /** A provisioning call for `key` concerns no stranger. */
  predicate Known(w: World, key: Key) {
    forall e | e in Strangers(w) :: e.key != key
  }

  lemma UpsertKeepsStrangers(w: World, up: bool, e: Entry, replace: bool, c: Customer)
    requires Upsert(w.device, up, e, replace).Some? && (replace ==> Known(w, e.key))
    ensures Strangers(w.(device := Upsert(w.device, up, e, replace).value, customers := w.customers[e.key := c]))
            == Strangers(w)
  {
    var customers := w.customers[e.key := c];
    var names := w.customers.Keys + {e.key};
    assert customers.Keys == names;
    match Find(w.device, e.key)
    case None =>
      OthersAppend(w.device, e, names);
      OthersNewName(w.device, w.customers.Keys, e.key);
    case Some(i) =>
      assert w.device[i] in w.device;
      assert w.customers.Keys == names;
      OthersUpdate(w.device, i, e.(limit := if e.limit.Some? then e.limit else w.device[i].limit), names);
  }

  lemma SetKeepsStrangers(w: World, key: Key, enabled: bool, up: bool)
    ensures Strangers(SetCustomer(w, key, enabled, up)) == Strangers(w)
  {
    hide Others;
    var v := SetCustomer(w, key, enabled, up);
    if v != w {
      assert v.customers.Keys == w.customers.Keys;
      var i := Find(w.device, key).value;
      OthersUpdate(w.device, i, w.device[i].(enabled := enabled), w.customers.Keys);
    }
  }

  lemma DropKeepsStrangers(w: World, key: Key, up: bool)
    ensures Strangers(DropCustomer(w, key, up)) == Strangers(w)
  {
    hide Others, Without;
    var v := DropCustomer(w, key, up);
    if v != w {
      assert v.customers.Keys == w.customers.Keys - {key};
      OthersWithout(w.device, w.customers.Keys, key);
    }
  }

  lemma {:induction false} ExpireKeepsStrangers(w: World, rows: seq<Key>, now: int, unreachable: set<Key>)
    ensures Strangers(ExpireAccess(w, rows, now, unreachable)) == Strangers(w)
    decreases |rows|
  {
    hide Strangers, SetCustomer, AccessDue;
    if rows != [] {
      var front, key := rows[..|rows| - 1], rows[|rows| - 1];
      ExpireKeepsStrangers(w, front, now, unreachable);
      SetKeepsStrangers(ExpireAccess(w, front, now, unreachable), key, false, key !in unreachable);
    }
  }

  // ------------------------------------------------------------------ steps

  /** No stranger has a name derived from a payment session: those names are fresh. */
  predicate StrangersTyped(w: World) {
    forall e | e in Strangers(w) :: e.key.name.Typed?
  }

  lemma PrepareKeepsStrangers(w: World, id: nat, password: string, up: bool, now: int)
    requires SessionsOk(w.packages, w.sessions) && StrangersTyped(w)
    ensures Strangers(Prepare(w, id, password, up, now)) == Strangers(w)
  {
    hide Upsert, Others, RouterUp;
    if id < |w.sessions| && w.sessions[id].task == Asking(false) {
      var row := w.sessions[id].(task := Asking(true));
      assert SessionOk(w.packages, id, w.sessions[id]);
      if Prepare(w, id, password, up, now) != w.(sessions := w.sessions[id := row]) {
        var p, s := w.packages[row.package], WithCredentials(id, row, password, now);
        var key := Key(Hotspot, s.router, Derived(id));
        UpsertKeepsStrangers(w, RouterUp(w, s.router, up), HotspotEntry(key, s.accessPassword.value, p), true,
                             Customer(s.accessPassword.value, true, None, s.package));
      }
    }
  }

  lemma GrantKeepsStrangers(w: World, id: nat, row: Session, p: Package, password: string, up: bool, now: int)
    requires StrangersTyped(w) && row.service == p.service && Provision(w, id, row, p, password, up, now).Some?
    requires row.service.Hotspot? ==> row.accessName.None? || row.accessName == Some(Derived(id))
    ensures
      var g := Provision(w, id, row, p, password, up, now).value;
      Strangers(w.(device := g.device, customers := w.customers[g.key := g.customer])) == Strangers(w)
  {
    hide Upsert, Others, RouterUp;
    var g := Provision(w, id, row, p, password, up, now).value;
    if p.service.Hotspot? {
      if g.key in w.customers && w.customers[g.key].active {
        assert w.customers[g.key := g.customer].Keys == w.customers.Keys;
      } else {
        UpsertKeepsStrangers(w, RouterUp(w, row.router, up), HotspotEntry(g.key, g.customer.password, p), true,
                             g.customer);
      }
    } else {
      UpsertKeepsStrangers(w, RouterUp(w, row.router, up), Entry(g.key, g.customer.password, p.profile, true, None),
                           true, g.customer);
    }
  }

  lemma CompleteKeepsStrangers(w: World, id: nat, receipt: Option<string>, password: string, up: bool, now: int)
    requires SessionsOk(w.packages, w.sessions) && StrangersTyped(w)
    ensures Strangers(Complete(w, id, receipt, password, up, now)) == Strangers(w)
  {
    hide Provision, Others, HasInvoice;
    if id < |w.sessions| && !w.sessions[id].status.Provisioned? {
      assert SessionOk(w.packages, id, w.sessions[id]);
      var row := w.sessions[id].(status := Provisioning, receipt := receipt, updatedAt := now);
      if Provision(w, id, row, w.packages[row.package], password, up, now).Some? {
        GrantKeepsStrangers(w, id, row, w.packages[row.package], password, up, now);
      }
    }
  }

  lemma CleanupKeepsStrangers(w: World, id: nat, up: bool, now: int)
    ensures Strangers(Cleanup(w, id, up, now)) == Strangers(w)
  {
    hide Without, Others, RouterUp;
    var v := Cleanup(w, id, up, now);
    if v != w {
      var key := Key(Hotspot, w.sessions[id].router, w.sessions[id].accessName.value);
      assert v.customers.Keys == w.customers.Keys - {key};
      OthersWithout(w.device, w.customers.Keys, key);
    }
  }

  lemma CreateCustomerKeepsStrangers(w: World, service: Service, router: nat, name: string, password: string,
                                     package: nat, up: bool, now: int)
    ensures Strangers(CreateCustomer(w, service, router, name, password, package, up, now)) == Strangers(w)
  {
    hide Upsert, Others;
    var v := CreateCustomer(w, service, router, name, password, package, up, now);
    if v != w {
      var key, p := Key(service, router, Typed(name)), w.packages[package];
      var e := Entry(key, password, p.profile, true, if service.Hotspot? then Some(p.validity) else None);
      UpsertKeepsStrangers(w, up, e, false, Customer(password, true, Some(now + 60 * p.validity), package));
    }
  }

  lemma PlainStepKeepsStrangers(settings: Settings, w: World, step: Step)
    requires IsQuiet(step) || step.StepCreatePayment? || step.StepFinishInitiation?
    ensures Strangers(Next(settings, w, step)) == Strangers(w)
  {
    hide Others, FindByKey, RecentCount, Next;
    if IsQuiet(step) {
      QuietSteps(settings, w, step);
    } else {
      assert Next(settings, w, step) == w.(sessions := Next(settings, w, step).sessions) by {
        SessionsOnly(settings, w, step);
      }
    }
  }

  lemma SessionsOnly(settings: Settings, w: World, step: Step)
    requires step.StepCreatePayment? || step.StepFinishInitiation?
    ensures Next(settings, w, step) == w.(sessions := Next(settings, w, step).sessions)
  {
    hide FindByKey, RecentCount;
  }

  lemma StepKeepsStrangers(settings: Settings, w: World, step: Step)
    requires SessionsOk(w.packages, w.sessions) && StrangersTyped(w)
    ensures Strangers(Next(settings, w, step)) == Strangers(w)
  {
    hide Strangers, StrangersTyped, SessionsOk, CreatePayment, Prepare, FinishInitiation, Complete, Cleanup,
         CreateCustomer, SetCustomer, DropCustomer, ExpireAccess, CanComplete;
    match step
    case StepPrepare(id, password, up, now) => PrepareKeepsStrangers(w, id, password, up, now);
    case StepComplete(id, receipt, password, up, now) => CompleteKeepsStrangers(w, id, receipt, password, up, now);
    case StepCleanup(id, up, now) => CleanupKeepsStrangers(w, id, up, now);
    case StepCreateCustomer(service, router, name, password, package, up, now) =>
      CreateCustomerKeepsStrangers(w, service, router, name, password, package, up, now);
    case StepSetCustomer(key, enabled, up) => SetKeepsStrangers(w, key, enabled, up);
    case StepDropCustomer(key, up) => DropKeepsStrangers(w, key, up);
    case StepExpireAccess(rows, now, unreachable) => ExpireKeepsStrangers(w, rows, now, unreachable);
    case _ => PlainStepKeepsStrangers(settings, w, step);
  }

  /** In every run the router users no customer row names stay the same lines in the same order;
    with the agreement of the stores, the routers hold these and one user for each row. */
  lemma {:induction false} StrangersAreLeftAlone(settings: Settings, w: World, steps: seq<Step>)
    requires AccessInv(w) && StrangersTyped(w)
    ensures Strangers(Run(settings, w, steps)) == Strangers(w)
    decreases |steps|
  {
    hide Next, AccessInv, Strangers;
    if steps != [] {
      assert SessionsOk(w.packages, w.sessions) by {
        InvSessions(w);
      }
      StepKeepsInv(settings, w, steps[0]);
      StepKeepsStrangers(settings, w, steps[0]);
      StrangersAreLeftAlone(settings, Next(settings, w, steps[0]), steps[1..]);
    }
  }

  lemma InvSessions(w: World)
    requires AccessInv(w)
    ensures SessionsOk(w.packages, w.sessions)
  {
  }
}
