/** The database and the routers agree on every customer, in every run of the payment system, and
  router users that no customer row names are left as they were. */
module PaymentAccess {
  import opened Text
  import opened AccessTables
  import opened PaymentModel

  // ------------------------------------------------------------------ kinds of steps

  predicate PackagesKept(before: map<nat, Package>, after: map<nat, Package>) {
    forall p | p in before :: p in after && after[p].router == before[p].router && after[p].service == before[p].service
  }

  /** Only the status and the update time differ, and a provisioned session is as it was. */
  predicate Settles(s: Session, t: Session) {
    || t == s
    || (&& !s.status.Provisioned?
        && (t.status.Failed? || t.status.ManualReview? || t.status == s.status)
        && t == s.(status := t.status, updatedAt := t.updatedAt))
  }

  /** Nothing but statuses, packages and routers may differ. */
  predicate Quiet(w: World, v: World) {
    && v.customers == w.customers && v.device == w.device && v.ledger == w.ledger
    && |v.sessions| == |w.sessions| && (forall i | 0 <= i < |w.sessions| :: Settles(w.sessions[i], v.sessions[i]))
    && PackagesKept(w.packages, v.packages)
  }

  predicate IsQuiet(step: Step) {
    IsStatusStep(step) || step.StepExpireSessions? || step.StepDeleteRouter? || step.StepPutPackage?
    || step.StepPutRouter?
  }

  lemma QuietUpdate(w: World, id: nat, t: Session)
    requires id < |w.sessions| && Settles(w.sessions[id], t)
    ensures Quiet(w, w.(sessions := w.sessions[id := t])) && Quiet(w, w)
  {
  }

  predicate IsStatusStep(step: Step) {
    step.StepPoll? || step.StepRecordQuery? || step.StepCallbackFails? || step.StepMarkReview? || step.StepKopoAnswer?
  }

  lemma PollQuiet(settings: Settings, w: World, id: nat, tokenOk: bool, now: int)
    requires id < |w.sessions|
    ensures Quiet(w, Poll(settings, w, id, tokenOk, now).0)
  {
    hide Quiet;
    var t := Poll(settings, w, id, tokenOk, now).0.sessions[id];
    QuietUpdate(w, id, t);
  }

  lemma QuietStatusStep(settings: Settings, w: World, step: Step)
    requires IsStatusStep(step) && step.id < |w.sessions|
    ensures Quiet(w, Next(settings, w, step))
  {
    hide Quiet, CreatePayment, Prepare, FinishInitiation, Complete, Cleanup, ExpireSessions, DeleteRouter,
         CreateCustomer, SetCustomer, DropCustomer, ExpireAccess, PutPackage, PutRouter, CanComplete, Poll;
    if step.StepPoll? {
      PollQuiet(settings, w, step.id, step.tokenOk, step.now);
    } else {
      QuietUpdate(w, step.id, Next(settings, w, step).sessions[step.id]);
    }
  }

  lemma UnknownSession(settings: Settings, w: World, step: Step)
    requires IsStatusStep(step) && step.id >= |w.sessions|
    ensures Next(settings, w, step) == w
  {
  }

  lemma QuietSteps(settings: Settings, w: World, step: Step)
    requires IsQuiet(step)
    ensures Quiet(w, Next(settings, w, step))
  {
    hide CreatePayment, Prepare, FinishInitiation, Complete, Cleanup, Poll, RecordQuery, CallbackFails, MarkReview,
         KopoAnswer, CreateCustomer, SetCustomer, DropCustomer, ExpireAccess, CanComplete;
    if IsStatusStep(step) {
      if step.id < |w.sessions| {
        QuietStatusStep(settings, w, step);
      } else {
        UnknownSession(settings, w, step);
      }
    }
  }

  /** The operator's steps on customers, and the expiry job. */
  predicate IsAccessStep(step: Step) {
    step.StepCreateCustomer? || step.StepSetCustomer? || step.StepDropCustomer? || step.StepExpireAccess?
  }

  predicate AccessOnly(w: World, v: World) {
    v == w.(customers := v.customers, device := v.device)
  }

  lemma {:induction false} ExpireAccessOnly(w: World, rows: seq<Key>, now: int, unreachable: set<Key>)
    ensures AccessOnly(w, ExpireAccess(w, rows, now, unreachable))
    decreases |rows|
  {
    if rows != [] {
      ExpireAccessOnly(w, rows[..|rows| - 1], now, unreachable);
    }
  }

  lemma AccessSteps(settings: Settings, w: World, step: Step)
    requires IsAccessStep(step)
    ensures AccessOnly(w, Next(settings, w, step))
  {
    if step.StepExpireAccess? {
      ExpireAccessOnly(w, step.rows, step.now, step.unreachable);
    }
  }

  // ------------------------------------------------------------------ the invariant

  predicate SessionOk(packages: map<nat, Package>, i: nat, s: Session) {
    && s.package in packages && packages[s.package].router == s.router && packages[s.package].service == s.service
    && !s.status.Provisioning?
    && (s.service.Hotspot? ==> s.accessName.None? || s.accessName == Some(Derived(i)))
    && (s.provider.Mpesa? && (s.requestId.Some? || s.status.Provisioned? || s.status.ProvisioningFailed?)
        ==> s.requestId.Some? && s.task.Done?)
  }

  predicate SessionsOk(packages: map<nat, Package>, sessions: seq<Session>) {
    forall i | 0 <= i < |sessions| :: SessionOk(packages, i, sessions[i])
  }

  /** An account under a derived name belongs to that session, which holds its password. */
  predicate Owns(sessions: seq<Session>, key: Key, c: Customer)
    requires key.name.Derived?
  {
    && key.service.Hotspot? && key.name.session < |sessions|
    && var s := sessions[key.name.session];
       s.service.Hotspot? && s.router == key.router && s.accessName == Some(key.name)
       && s.accessPassword == Some(c.password)
  }

  predicate OwnAccess(sessions: seq<Session>, customers: map<Key, Customer>) {
    forall key | key in customers && key.name.Derived? :: Owns(sessions, key, customers[key])
  }

  predicate AccessInv(w: World) {
    SessionsOk(w.packages, w.sessions) && OwnAccess(w.sessions, w.customers) && Agrees(w.customers, w.device)
  }

  lemma QuietKeepsInv(w: World, v: World)
    requires AccessInv(w) && Quiet(w, v)
    ensures AccessInv(v)
  {
    hide Agrees;
    forall i | 0 <= i < |v.sessions| ensures SessionOk(v.packages, i, v.sessions[i]) {
      assert Settles(w.sessions[i], v.sessions[i]) && SessionOk(w.packages, i, w.sessions[i]);
    }
    forall key | key in v.customers && key.name.Derived? ensures Owns(v.sessions, key, v.customers[key]) {
      assert Owns(w.sessions, key, w.customers[key]);
      assert Settles(w.sessions[key.name.session], v.sessions[key.name.session]);
    }
  }

  lemma SetCustomerKeepsInv(w: World, key: Key, enabled: bool, up: bool)
    requires AccessInv(w)
    ensures AccessInv(SetCustomer(w, key, enabled, up))
  {
    hide Agrees, SetEnabled, SessionOk, RouterUp;
    if key in w.customers && SetEnabled(w.device, RouterUp(w, key.router, up), key, enabled).Some? {
      EnableAgrees(w.customers, w.device, RouterUp(w, key.router, up), key, enabled);
    }
  }

  lemma DropCustomerKeepsInv(w: World, key: Key, up: bool)
    requires AccessInv(w)
    ensures AccessInv(DropCustomer(w, key, up))
  {
    hide Agrees, Delete, SessionOk, RouterUp;
    if key in w.customers && Delete(w.device, RouterUp(w, key.router, up), key).Some? {
      DeleteAgrees(w.customers, w.device, RouterUp(w, key.router, up), key);
    }
  }

  lemma {:induction false} ExpireAccessKeepsInv(w: World, rows: seq<Key>, now: int, unreachable: set<Key>)
    requires AccessInv(w)
    ensures AccessInv(ExpireAccess(w, rows, now, unreachable))
    decreases |rows|
  {
    hide AccessInv, SetCustomer, AccessDue;
    if rows != [] {
      var front := rows[..|rows| - 1];
      ExpireAccessKeepsInv(w, front, now, unreachable);
      SetCustomerKeepsInv(ExpireAccess(w, front, now, unreachable), rows[|rows| - 1], false,
                          rows[|rows| - 1] !in unreachable);
    }
  }

  lemma CreateCustomerKeepsInv(w: World, service: Service, router: nat, name: string, password: string, package: nat,
                               up: bool, now: int)
    requires AccessInv(w)
    ensures AccessInv(CreateCustomer(w, service, router, name, password, package, up, now))
  {
    hide Agrees, Upsert, SessionOk, Owns;
    var v := CreateCustomer(w, service, router, name, password, package, up, now);
    if v != w {
      var key, p := Key(service, router, Typed(name)), w.packages[package];
      var e := Entry(key, password, p.profile, true, if service.Hotspot? then Some(p.validity) else None);
      ProvisionAgrees(w.customers, w.device, up, e, false,
                      Customer(password, true, Some(now + 60 * p.validity), package));
    }
  }

  lemma CreatePaymentKeepsInv(settings: Settings, w: World, r: Request, now: int, stamp: int)
    requires AccessInv(w)
    ensures AccessInv(CreatePayment(settings, w, r, now, stamp).0)
  {
    hide Agrees, FindByKey, RecentCount;
    var v := CreatePayment(settings, w, r, now, stamp).0;
    if v != w {
      assert |v.sessions| == |w.sessions| + 1;
      forall i | 0 <= i < |v.sessions| ensures SessionOk(v.packages, i, v.sessions[i]) {
        assert i < |w.sessions| ==> SessionOk(w.packages, i, w.sessions[i]);
      }
      forall key | key in v.customers && key.name.Derived? ensures Owns(v.sessions, key, v.customers[key]) {
        assert Owns(w.sessions, key, w.customers[key]);
      }
    }
  }

  /** Rewriting one session that keeps its account's credentials. */
  lemma SessionUpdateKeepsInv(w: World, id: nat, s: Session)
    requires AccessInv(w) && id < |w.sessions| && SessionOk(w.packages, id, s)
    requires s.service == w.sessions[id].service && s.router == w.sessions[id].router
    requires s.accessName == w.sessions[id].accessName && s.accessPassword == w.sessions[id].accessPassword
    ensures AccessInv(w.(sessions := w.sessions[id := s]))
  {
    hide Agrees, SessionOk;
    forall key | key in w.customers && key.name.Derived? ensures Owns(w.sessions[id := s], key, w.customers[key]) {
      assert Owns(w.sessions, key, w.customers[key]);
    }
  }

  /** Rewriting one session and the account its credentials open. */
  lemma GrantKeepsInv(w: World, id: nat, s: Session, device: seq<Entry>, key: Key, c: Customer, ledger: seq<Payment>)
    requires AccessInv(w) && id < |w.sessions| && SessionOk(w.packages, id, s)
    requires s.service == w.sessions[id].service && s.router == w.sessions[id].router
    requires key == SessionKey(id, s) && s.accessName == Some(key.name)
    requires s.service.Hotspot? ==> s.accessPassword == Some(c.password)
    requires Agrees(w.customers[key := c], device)
    ensures AccessInv(w.(sessions := w.sessions[id := s], device := device, customers := w.customers[key := c],
                         ledger := ledger))
  {
    hide Agrees, SessionOk;
    var sessions, customers := w.sessions[id := s], w.customers[key := c];
    forall k | k in customers && k.name.Derived? ensures Owns(sessions, k, customers[k]) {
      if k != key {
        assert Owns(w.sessions, k, w.customers[k]);
        assert k.name.session != id;
      }
    }
  }

  lemma FinishInitiationKeepsInv(w: World, id: nat, answer: Option<string>, now: int)
    requires AccessInv(w)
    ensures AccessInv(FinishInitiation(w, id, answer, now))
  {
    hide Agrees, OwnAccess;
    var v := FinishInitiation(w, id, answer, now);
    if v != w {
      SessionUpdateKeepsInv(w, id, v.sessions[id]);
      assert v == w.(sessions := w.sessions[id := v.sessions[id]]);
    }
  }

  lemma PrepareKeepsInv(w: World, id: nat, password: string, up: bool, now: int)
    requires AccessInv(w)
    ensures AccessInv(Prepare(w, id, password, up, now))
  {
    hide Agrees, OwnAccess, Upsert, RouterUp;
    if id < |w.sessions| && w.sessions[id].task == Asking(false) {
      var row := w.sessions[id].(task := Asking(true));
      assert SessionOk(w.packages, id, w.sessions[id]);
      SessionUpdateKeepsInv(w, id, row);
      var v := Prepare(w, id, password, up, now);
      if v != w.(sessions := w.sessions[id := row]) {
        var p, s := w.packages[row.package], WithCredentials(id, row, password, now);
        var key := Key(Hotspot, s.router, Derived(id));
        var c := Customer(s.accessPassword.value, true, None, s.package);
        ProvisionAgrees(w.customers, w.device, RouterUp(w, s.router, up), HotspotEntry(key, s.accessPassword.value, p),
                        true, c);
        GrantKeepsInv(w, id, s.(updatedAt := now), v.device, key, c, w.ledger);
      }
    }
  }

  lemma ProvisionHotspotAgrees(w: World, id: nat, row: Session, p: Package, password: string, up: bool, now: int)
    requires Agrees(w.customers, w.device) && OwnAccess(w.sessions, w.customers) && id < |w.sessions|
    requires row.service.Hotspot? && (row.accessName.None? || row.accessName == Some(Derived(id)))
    requires row.accessName == w.sessions[id].accessName && row.accessPassword == w.sessions[id].accessPassword
    requires ProvisionHotspot(w, id, row, p, password, up, now).Some?
    ensures
      var g := ProvisionHotspot(w, id, row, p, password, up, now).value;
      && g.key == SessionKey(id, row) && g.session == WithCredentials(id, row, password, now)
      && g.session.accessName == Some(g.key.name) && g.session.accessPassword == Some(g.customer.password)
      && Agrees(w.customers[g.key := g.customer], g.device)
  {
    hide Agrees, Upsert, RouterUp;
    var g := ProvisionHotspot(w, id, row, p, password, up, now).value;
    if g.key in w.customers && w.customers[g.key].active {
      assert Owns(w.sessions, g.key, w.customers[g.key]);
      RowUpdateAgrees(w.customers, w.device, g.key, g.customer);
    } else {
      ProvisionAgrees(w.customers, w.device, RouterUp(w, row.router, up),
                      HotspotEntry(g.key, g.customer.password, p), true, g.customer);
    }
  }

  lemma ProvisionPppoeAgrees(w: World, id: nat, row: Session, p: Package, up: bool, now: int)
    requires Agrees(w.customers, w.device) && row.service.Pppoe?
    requires ProvisionPppoe(w, row, p, up, now).Some?
    ensures
      var g := ProvisionPppoe(w, row, p, up, now).value;
      && g.key == SessionKey(id, row) && g.session.accessName == Some(g.key.name)
      && g.session == row.(accessName := Some(g.key.name), accessPassword := None, credentialsUntil := None)
      && Agrees(w.customers[g.key := g.customer], g.device)
  {
    hide Agrees, Upsert, RouterUp;
    var g := ProvisionPppoe(w, row, p, up, now).value;
    ProvisionAgrees(w.customers, w.device, RouterUp(w, row.router, up),
                    Entry(g.key, g.customer.password, p.profile, true, None), true, g.customer);
  }

  lemma CompleteKeepsInv(w: World, id: nat, receipt: Option<string>, password: string, up: bool, now: int)
    requires AccessInv(w) && CanComplete(w, id)
    ensures AccessInv(Complete(w, id, receipt, password, up, now))
  {
    hide Agrees, OwnAccess, ProvisionHotspot, ProvisionPppoe, HasInvoice;
    var prior := w.sessions[id];
    assert SessionOk(w.packages, id, prior);
    if !prior.status.Provisioned? {
      var row := prior.(status := Provisioning, receipt := receipt, updatedAt := now);
      var p := w.packages[row.package];
      match Provision(w, id, row, p, password, up, now)
      case None => SessionUpdateKeepsInv(w, id, prior.(status := ProvisioningFailed, updatedAt := now));
      case Some(g) =>
        if p.service.Hotspot? {
          ProvisionHotspotAgrees(w, id, row, p, password, up, now);
        } else {
          ProvisionPppoeAgrees(w, id, row, p, up, now);
        }
        GrantKeepsInv(w, id, g.session.(status := Provisioned), g.device, g.key, g.customer,
                      Complete(w, id, receipt, password, up, now).ledger);
    }
  }

  lemma CleanupKeepsInv(w: World, id: nat, up: bool, now: int)
    requires AccessInv(w)
    ensures AccessInv(Cleanup(w, id, up, now))
  {
    hide Agrees, Delete, RouterUp;
    var v := Cleanup(w, id, up, now);
    if v != w {
      var s := w.sessions[id];
      assert SessionOk(w.packages, id, s);
      var key := Key(Hotspot, s.router, Derived(id));
      DeleteAgrees(w.customers, w.device, RouterUp(w, s.router, up), key);
      forall k | k in v.customers && k.name.Derived? ensures Owns(v.sessions, k, v.customers[k]) {
        assert Owns(w.sessions, k, w.customers[k]);
      }
    }
  }

  lemma StepKeepsInv(settings: Settings, w: World, step: Step)
    requires AccessInv(w)
    ensures AccessInv(Next(settings, w, step))
  {
    hide *;
    if IsQuiet(step) {
      QuietSteps(settings, w, step);
      QuietKeepsInv(w, Next(settings, w, step));
    } else {
      OtherStepKeepsInv(settings, w, step);
    }
  }

  lemma OtherStepKeepsInv(settings: Settings, w: World, step: Step)
    requires AccessInv(w) && !IsQuiet(step)
    ensures AccessInv(Next(settings, w, step))
  {
    hide AccessInv, CreatePayment, Prepare, FinishInitiation, Complete, Cleanup, CreateCustomer, SetCustomer,
         DropCustomer, ExpireAccess, CanComplete;
    match step
    case StepCreatePayment(request, now, stamp) => CreatePaymentKeepsInv(settings, w, request, now, stamp);
    case StepPrepare(id, password, up, now) => PrepareKeepsInv(w, id, password, up, now);
    case StepFinishInitiation(id, answer, now) => FinishInitiationKeepsInv(w, id, answer, now);
    case StepComplete(id, receipt, password, up, now) =>
      if CanComplete(w, id) {
        CompleteKeepsInv(w, id, receipt, password, up, now);
      }
    case StepCleanup(id, up, now) => CleanupKeepsInv(w, id, up, now);
    case StepCreateCustomer(service, router, name, password, package, up, now) =>
      CreateCustomerKeepsInv(w, service, router, name, password, package, up, now);
    case StepSetCustomer(key, enabled, up) => SetCustomerKeepsInv(w, key, enabled, up);
    case StepDropCustomer(key, up) => DropCustomerKeepsInv(w, key, up);
    case StepExpireAccess(rows, now, unreachable) => ExpireAccessKeepsInv(w, rows, now, unreachable);
  }

  /** Two-store agreement: in every run, whichever router calls fail, each customer row has
    exactly one router user of its name, with its password, enabled exactly when the row is
    active. */
  lemma {:induction false} StoresAgree(settings: Settings, w: World, steps: seq<Step>)
    requires AccessInv(w)
    ensures AccessInv(Run(settings, w, steps))
    ensures Agrees(Run(settings, w, steps).customers, Run(settings, w, steps).device)
    decreases |steps|
  {
    hide Next, Agrees, SessionsOk, OwnAccess;
    if steps != [] {
      StepKeepsInv(settings, w, steps[0]);
      StoresAgree(settings, Next(settings, w, steps[0]), steps[1..]);
    }
  }
}
