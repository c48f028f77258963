/** The hotspot account a session prepares, pays for and may lose: what cleanup may remove, how
  long paid access lasts, and how a late success recovers a failed session. */
module PaymentHotspot {
  import opened Text
  import opened AccessTables
  import opened PaymentModel
  import opened PaymentAccess
  import opened PaymentMoves
  import opened PaymentLedger
  import opened PaymentRenewals

  function Account(w: World, i: nat): Key
    requires i < |w.sessions|
  {
    SessionKey(i, w.sessions[i])
  }

  predicate HotspotSession(w: World, i: nat, kopo: bool) {
    i < |w.sessions| && w.sessions[i].service.Hotspot? && Covered(w.sessions[i], kopo)
  }

  /** A prepared account has no expiry until its session is provisioned, and has one from then on. */
  predicate Finalised(w: World, kopo: bool) {
    forall i: nat | 0 <= i < |w.sessions| && HotspotSession(w, i, kopo) && Account(w, i) in w.customers ::
      w.customers[Account(w, i)].expires.Some? <==> w.sessions[i].status.Provisioned?
  }

  predicate HotspotInv(w: World, kopo: bool) { LedgerInv(w, kopo) && Finalised(w, kopo) }

  // ------------------------------------------------------------------ which steps touch an account

  /** The steps of session `i` itself, and the operator's deletion of its account. */
  predicate Own(step: Step, i: nat, key: Key) {
    || (step.StepPrepare? && step.id == i)
    || (step.StepComplete? && step.id == i)
    || (step.StepCleanup? && step.id == i)
    || Drops(step, key)
  }

  predicate Untouched(before: map<Key, Customer>, after: map<Key, Customer>, key: Key) {
    && (key in after <==> key in before)
    && (key in before ==> after[key] == before[key].(active := after[key].active))
  }

  lemma PrepareTouches(w: World, id: nat, password: string, up: bool, now: int, key: Key)
    requires SessionsOk(w.packages, w.sessions) && key != Key(Hotspot, key.router, Derived(id))
    ensures Untouched(w.customers, Prepare(w, id, password, up, now).customers, key)
  {
    hide Upsert, RouterUp;
    if id < |w.sessions| {
      assert SessionOk(w.packages, id, w.sessions[id]);
    }
  }

  lemma CleanupTouches(w: World, id: nat, up: bool, now: int, key: Key)
    requires SessionsOk(w.packages, w.sessions) && key != Key(Hotspot, key.router, Derived(id))
    ensures Untouched(w.customers, Cleanup(w, id, up, now).customers, key)
  {
    hide Delete, RouterUp;
    if id < |w.sessions| {
      assert SessionOk(w.packages, id, w.sessions[id]);
    }
  }

  lemma CompleteTouches(w: World, id: nat, receipt: Option<string>, password: string, up: bool, now: int, key: Key)
    requires AccessInv(w) && id < |w.sessions| && key != SessionKey(id, w.sessions[id])
    ensures Untouched(w.customers, Complete(w, id, receipt, password, up, now).customers, key)
  {
    hide Complete, AccessInv;
    CompleteMoves(w, id, receipt, password, up, now);
    if !w.sessions[id].status.Provisioned? {
      CompleteGrants(w, id, receipt, password, up, now);
    }
  }

  lemma {:induction false} ExpireTouches(w: World, rows: seq<Key>, now: int, unreachable: set<Key>, key: Key)
    ensures Untouched(w.customers, ExpireAccess(w, rows, now, unreachable).customers, key)
    decreases |rows|
  {
    hide SetEnabled, RouterUp;
    if rows != [] {
      ExpireTouches(w, rows[..|rows| - 1], now, unreachable, key);
    }
  }

  lemma AccessTouches(settings: Settings, w: World, step: Step, key: Key)
    requires IsAccessStep(step) && !Drops(step, key) && key.name.Derived?
    ensures Untouched(w.customers, Next(settings, w, step).customers, key)
  {
    hide Upsert, SetEnabled, Delete, RouterUp;
    if step.StepExpireAccess? {
      ExpireTouches(w, step.rows, step.now, step.unreachable, key);
    }
  }

  lemma OnlyOwnStepsTouch(settings: Settings, w: World, step: Step, i: nat, router: nat)
    requires AccessInv(w) && !Own(step, i, Key(Hotspot, router, Derived(i)))
    ensures Untouched(w.customers, Next(settings, w, step).customers, Key(Hotspot, router, Derived(i)))
  {
    hide CreatePayment, Prepare, FinishInitiation, Complete, Cleanup, CreateCustomer, SetCustomer, DropCustomer,
         ExpireAccess, Poll, RecordQuery, CallbackFails, MarkReview, KopoAnswer, ExpireSessions, DeleteRouter,
         PutPackage, PutRouter, SessionsOk, Agrees, OwnAccess;
    var key := Key(Hotspot, router, Derived(i));
    if IsQuiet(step) {
      QuietSteps(settings, w, step);
    } else if IsAccessStep(step) {
      AccessTouches(settings, w, step, key);
    } else {
      match step
      case StepCreatePayment(request, now, stamp) => CreateMoves(settings, w, request, now, stamp);
      case StepPrepare(id, password, up, now) => PrepareTouches(w, id, password, up, now, key);
      case StepFinishInitiation(id, answer, now) => FinishCustomers(w, id, answer, now);
      case StepComplete(id, receipt, password, up, now) =>
        if CanComplete(w, id) {
          CompleteTouches(w, id, receipt, password, up, now, key);
        }
      case StepCleanup(id, up, now) => CleanupTouches(w, id, up, now, key);
    }
  }

  lemma FinishCustomers(w: World, id: nat, answer: Option<string>, now: int)
    ensures FinishInitiation(w, id, answer, now).customers == w.customers
  {
  }

  // ------------------------------------------------------------------ the invariant holds in every run

  lemma PrepareFinalises(w: World, i: nat, password: string, up: bool, now: int, key: Key)
    requires i < |w.sessions| && key == SessionKey(i, w.sessions[i]) && key.service.Hotspot?
    requires SessionOk(w.packages, i, w.sessions[i])
    ensures
      var v := Prepare(w, i, password, up, now);
      v.customers == w.customers
      || (key in v.customers && v.customers[key].expires.None? && w.sessions[i].task == Asking(false))
  {
    hide Upsert, RouterUp;
  }

  lemma CleanupFinalises(w: World, i: nat, up: bool, now: int, key: Key)
    requires i < |w.sessions| && key == SessionKey(i, w.sessions[i]) && key.service.Hotspot?
    requires SessionOk(w.packages, i, w.sessions[i])
    ensures
      var v := Cleanup(w, i, up, now);
      v == w || (v.customers == w.customers - {key} && w.sessions[i].status.Failed? && w.customers[key].expires.None?)
  {
    hide Delete, RouterUp;
  }

  /** What a step of its own can do to the account of session `i`. */
  lemma OwnStepFinalises(settings: Settings, w: World, step: Step, i: nat, kopo: bool)
    requires HotspotInv(w, kopo) && HotspotSession(w, i, kopo) && Own(step, i, Account(w, i))
    ensures
      var key, v := Account(w, i), Next(settings, w, step);
      key in v.customers ==> i < |v.sessions| && (v.customers[key].expires.Some? <==> v.sessions[i].status.Provisioned?)
    ensures w.sessions[i].status.Provisioned? && !Drops(step, Account(w, i)) ==>
              Next(settings, w, step).customers == w.customers
  {
    hide Prepare, Complete, Cleanup, AccessInv, HasInvoice, LedgerOk, DropCustomer;
    var key := Account(w, i);
    assert SessionOk(w.packages, i, w.sessions[i]) by {
      SessionHolds(w, i);
    }
    MatchedOne(w, kopo, i);
    hide LedgerInv;
    StepMoves(settings, w, step, i);
    match step
    case StepPrepare(id, password, up, now) => PrepareFinalises(w, i, password, up, now, key);
    case StepComplete(id, receipt, password, up, now) =>
      CompleteMoves(w, i, receipt, password, up, now);
      if !w.sessions[i].status.Provisioned? {
        assert AccessInv(w) by {
          InvAccess(w, kopo);
        }
        CompleteGrants(w, i, receipt, password, up, now);
      }
    case StepCleanup(id, up, now) => CleanupFinalises(w, i, up, now, key);
    case StepDropCustomer(k, up) => DropRemoves(w, k, up);
  }

  lemma SessionHolds(w: World, i: nat)
    requires AccessInv(w) && i < |w.sessions|
    ensures SessionOk(w.packages, i, w.sessions[i])
  {
  }

  lemma InvAccess(w: World, kopo: bool)
    requires LedgerInv(w, kopo)
    ensures AccessInv(w)
  {
  }

  lemma DropRemoves(w: World, key: Key, up: bool)
    ensures var v := DropCustomer(w, key, up); v == w || (key !in v.customers && v.sessions == w.sessions)
  {
  }

  lemma UnbornHasNoAccount(w: World, i: nat, router: nat)
    requires AccessInv(w) && i >= |w.sessions|
    ensures Key(Hotspot, router, Derived(i)) !in w.customers
  {
    var key := Key(Hotspot, router, Derived(i));
    assert key in w.customers ==> Owns(w.sessions, key, w.customers[key]);
  }

  lemma StepFinalises(settings: Settings, w: World, step: Step, kopo: bool, i: nat)
    requires HotspotInv(w, kopo) && (kopo ==> Timely(w, step))
    requires HotspotSession(Next(settings, w, step), i, kopo)
    requires Account(Next(settings, w, step), i) in Next(settings, w, step).customers
    ensures
      var v := Next(settings, w, step);
      v.customers[Account(v, i)].expires.Some? <==> v.sessions[i].status.Provisioned?
  {
    hide Next, LedgerInv, HasInvoice, CanComplete, Timely;
    var v := Next(settings, w, step);
    var key := Account(v, i);
    InvAccess(w, kopo);
    if i < |w.sessions| {
      StepMoves(settings, w, step, i);
      assert Account(w, i) == key && HotspotSession(w, i, kopo);
      MatchedOne(w, kopo, i);
      if Own(step, i, key) {
        OwnStepFinalises(settings, w, step, i, kopo);
      } else {
        OnlyOwnStepsTouch(settings, w, step, i, key.router);
      }
    } else {
      UnbornHasNoAccount(w, i, key.router);
      if Own(step, i, key) {
        UnbornOwnStep(settings, w, step, i, key.router);
      } else {
        OnlyOwnStepsTouch(settings, w, step, i, key.router);
      }
    }
  }

  lemma UnbornOwnStep(settings: Settings, w: World, step: Step, i: nat, router: nat)
    requires i >= |w.sessions| && Own(step, i, Key(Hotspot, router, Derived(i)))
    requires Key(Hotspot, router, Derived(i)) !in w.customers
    ensures Next(settings, w, step) == w
  {
  }

  lemma StepKeepsHotspot(settings: Settings, w: World, step: Step, kopo: bool)
    requires HotspotInv(w, kopo) && (kopo ==> Timely(w, step))
    ensures HotspotInv(Next(settings, w, step), kopo)
  {
    hide Next, LedgerInv, Timely;
    var v := Next(settings, w, step);
    StepKeepsLedger(settings, w, step, kopo);
    forall i: nat | HotspotSession(v, i, kopo) && Account(v, i) in v.customers
      ensures v.customers[Account(v, i)].expires.Some? <==> v.sessions[i].status.Provisioned?
    {
      StepFinalises(settings, w, step, kopo, i);
    }
  }

  lemma {:induction false} AccountsAreFinalised(settings: Settings, w: World, steps: seq<Step>, kopo: bool)
    requires HotspotInv(w, kopo) && (kopo ==> TimelyRun(settings, w, steps))
    ensures HotspotInv(Run(settings, w, steps), kopo)
    decreases |steps|
  {
    hide Next, HotspotInv, Timely;
    if steps != [] {
      StepKeepsHotspot(settings, w, steps[0], kopo);
      AccountsAreFinalised(settings, Next(settings, w, steps[0]), steps[1..], kopo);
    }
  }

  // ------------------------------------------------------------------ main results

  /** Until an operator deletes it, the account of a provisioned session keeps its password, its
    package and its expiry in every run, and the router keeps a user of that name and password. */
  lemma {:induction false} PaidAccessLasts(settings: Settings, w: World, steps: seq<Step>, kopo: bool, i: nat)
    requires HotspotInv(w, kopo) && (kopo ==> TimelyRun(settings, w, steps))
    requires HotspotSession(w, i, kopo) && w.sessions[i].status.Provisioned? && Account(w, i) in w.customers
    requires forall step | step in steps :: !Drops(step, Account(w, i))
    ensures
      var v, key := Run(settings, w, steps), Account(w, i);
      && key in v.customers && v.customers[key] == w.customers[key].(active := v.customers[key].active)
      && SameAccess(v.customers[key], Lookup(v.device, key))
    decreases |steps|
  {
    hide Next, LedgerInv, Timely, Finalised, Own;
    var key := Account(w, i);
    if steps == [] {
      AgreesAt(w, kopo, key);
    } else {
      var v := Next(settings, w, steps[0]);
      StepKeepsHotspot(settings, w, steps[0], kopo);
      StepMoves(settings, w, steps[0], i);
      StaysProvisioned(settings, w, steps[0], kopo, i);
      if Own(steps[0], i, key) {
        OwnStepFinalises(settings, w, steps[0], i, kopo);
      } else {
        InvAccess(w, kopo);
        OnlyOwnStepsTouch(settings, w, steps[0], i, key.router);
      }
      PaidAccessLasts(settings, v, steps[1..], kopo, i);
    }
  }

  lemma StaysProvisioned(settings: Settings, w: World, step: Step, kopo: bool, i: nat)
    requires LedgerInv(w, kopo) && i < |w.sessions| && Covered(w.sessions[i], kopo) && w.sessions[i].status.Provisioned?
    ensures i < |Next(settings, w, step).sessions| && Next(settings, w, step).sessions[i].status.Provisioned?
  {
    hide Next, LedgerInv, HasInvoice;
    MatchedOne(w, kopo, i);
    StepMoves(settings, w, step, i);
  }

  lemma AgreesAt(w: World, kopo: bool, key: Key)
    requires LedgerInv(w, kopo) && key in w.customers
    ensures SameAccess(w.customers[key], Lookup(w.device, key))
  {
  }

  /** When cleanup removes the account of session `i`. */
  predicate Removes(w: World, i: nat, up: bool) {
    && i < |w.sessions| && w.sessions[i].status.Failed? && w.sessions[i].service.Hotspot?
    && w.sessions[i].accessName.Some?
    && Account(w, i) in w.customers && w.customers[Account(w, i)].expires.None?
    && RouterUp(w, w.sessions[i].router, up)
  }

  /** Cleanup removes one account or none: that of a failed session which was never provisioned.
    All other accounts, and all other router users, stay as they were. */
  lemma CleanupSparesPaidAccess(w: World, i: nat, up: bool, now: int, kopo: bool)
    requires HotspotInv(w, kopo)
    ensures
      var v := Cleanup(w, i, up, now);
      && v.customers == (if Removes(w, i, up) then w.customers - {Account(w, i)} else w.customers)
      && (Removes(w, i, up) ==> Lookup(v.device, Account(w, i)).None?)
      && (forall key | !(Removes(w, i, up) && key == Account(w, i)) :: Lookup(v.device, key) == Lookup(w.device, key))
    ensures Removes(w, i, up) && Covered(w.sessions[i], kopo) ==> !HasInvoice(w.ledger, i)
    ensures Removes(w, i, up) ==>
      forall j: nat | HotspotSession(w, j, kopo) && w.sessions[j].status.Provisioned? :: Account(w, j) != Account(w, i)
  {
    hide Lookup, Without, HasInvoice, RouterUp, LedgerOk;
    if i < |w.sessions| {
      SessionHolds(w, i);
      if Covered(w.sessions[i], kopo) {
        MatchedOne(w, kopo, i);
      }
      if Removes(w, i, up) {
        forall key
          ensures Lookup(Without(w.device, Account(w, i)), key)
                  == if key == Account(w, i) then None else Lookup(w.device, key)
        {
          WithoutKeepsOthers(w.device, Account(w, i), key);
        }
      }
    }
  }

  /** A verified success provisions a session exactly when the router can be reached or the
    prepared account is already active; a PPPoE account must exist as well. */
  predicate CanProvision(w: World, i: nat, up: bool)
    requires i < |w.sessions|
  {
    var s, key := w.sessions[i], Account(w, i);
    if s.service.Hotspot? then (key in w.customers && w.customers[key].active) || RouterUp(w, s.router, up)
    else s.reference != "" && key in w.customers && RouterUp(w, s.router, up)
  }

  lemma UpsertSucceedsExactly(device: seq<Entry>, up: bool, e: Entry)
    ensures Upsert(device, up, e, true).Some? <==> up
  {
  }

  lemma ProvisionSucceedsExactly(w: World, i: nat, row: Session, p: Package, password: string, up: bool, now: int)
    requires i < |w.sessions| && row.service == p.service
    requires row == w.sessions[i].(status := row.status, receipt := row.receipt, updatedAt := row.updatedAt)
    requires row.service.Hotspot? ==> row.accessName.None? || row.accessName == Some(Derived(i))
    ensures Provision(w, i, row, p, password, up, now).Some? <==> CanProvision(w, i, up)
  {
    hide Upsert, RouterUp, Renewed;
    forall e { UpsertSucceedsExactly(w.device, RouterUp(w, row.router, up), e); }
  }

  lemma CompletionSucceedsExactly(w: World, i: nat, receipt: Option<string>, password: string, up: bool, now: int)
    requires AccessInv(w) && i < |w.sessions| && !w.sessions[i].status.Provisioned?
    ensures i < |Complete(w, i, receipt, password, up, now).sessions|
    ensures Complete(w, i, receipt, password, up, now).sessions[i].status
            == if CanProvision(w, i, up) then Provisioned else ProvisioningFailed
  {
    hide Provision, HasInvoice, CanProvision;
    var s := w.sessions[i];
    SessionHolds(w, i);
    var row := s.(status := Provisioning, receipt := receipt, updatedAt := now);
    ProvisionSucceedsExactly(w, i, row, w.packages[s.package], password, up, now);
  }

  /** From any reachable failed hotspot session, cleaned or not, a success that can provision ends
    provisioned under the session's own name, with a full validity, a ledger row, and a router
    user of the session's password. */
  lemma FailedSessionRecovers(w: World, i: nat, receipt: Option<string>, password: string, up: bool, now: int,
                              kopo: bool)
    requires HotspotInv(w, kopo) && HotspotSession(w, i, kopo) && w.sessions[i].status.Failed?
    requires CanComplete(w, i) && CanProvision(w, i, up)
    requires kopo ==> Timely(w, StepComplete(i, receipt, password, up, now))
    ensures
      var v, key := Complete(w, i, receipt, password, up, now), Key(Hotspot, w.sessions[i].router, Derived(i));
      && i < |v.sessions| && v.sessions[i].status.Provisioned? && v.sessions[i].accessName == Some(Derived(i))
      && w.sessions[i].package in w.packages && key in v.customers
      && v.customers[key].active
      && v.customers[key].expires == Some(now + 60 * w.packages[w.sessions[i].package].validity)
      && v.sessions[i].accessPassword == Some(v.customers[key].password)
      && SameAccess(v.customers[key], Lookup(v.device, key))
      && HasInvoice(v.ledger, i)
  {
    hide Complete, CanProvision, LedgerInv, HasInvoice, RouterUp;
    var settings := Settings({}, 0, 0, 0, 0);
    var step := StepComplete(i, receipt, password, up, now);
    InvAccess(w, kopo);
    CompletionSucceedsExactly(w, i, receipt, password, up, now);
    CompleteGrants(w, i, receipt, password, up, now);
    StepKeepsLedger(settings, w, step, kopo);
    var v := Next(settings, w, step);
    AgreesAt(v, kopo, Account(w, i));
    StepMoves(settings, w, step, i);
    MatchedOne(v, kopo, i);
  }
}
