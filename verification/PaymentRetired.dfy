/** A deleted router: nothing is sold on it again, and its users are never called for again. */
module PaymentRetired {
  import opened Text
  import opened AccessTables
  import opened PaymentModel
  import opened PaymentAccess
  import opened PaymentMoves

  predicate Retired(w: World, router: nat) {
    router in w.routers && w.routers[router].deleted && !w.routers[router].portalEnabled
  }

  lemma DeletionRetires(w: World, router: nat, now: int)
    requires router in w.routers && !w.routers[router].deleted
    ensures Retired(DeleteRouter(w, router, now), router)
  {
  }

  lemma StepKeepsRetired(settings: Settings, w: World, step: Step, router: nat)
    requires Retired(w, router)
    ensures Retired(Next(settings, w, step), router)
  {
    hide CreatePayment, Prepare, FinishInitiation, Complete, Cleanup, CreateCustomer, SetCustomer, DropCustomer,
         ExpireAccess, Poll, RecordQuery, CallbackFails, MarkReview, KopoAnswer, ExpireSessions;
    if step.StepDeleteRouter? || step.StepPutRouter? {
    } else {
      assert Next(settings, w, step).routers == w.routers by {
        OtherStepsKeepRouters(settings, w, step);
      }
    }
  }

  lemma OtherStepsKeepRouters(settings: Settings, w: World, step: Step)
    requires !step.StepDeleteRouter? && !step.StepPutRouter?
    ensures Next(settings, w, step).routers == w.routers
  {
    hide Upsert, SetEnabled, Delete, Provision, RouterUp, HasInvoice, FindByKey, RecentCount, ExpireAccess,
         WithCredentials;
    if step.StepExpireAccess? {
      ExpireAccessOnly(w, step.rows, step.now, step.unreachable);
    }
  }

  // ------------------------------------------------------------------ its users

  ghost predicate SameLines(before: seq<Entry>, after: seq<Entry>, router: nat) {
    UniqueNames(after) && forall key: Key | key.router == router :: Lookup(after, key) == Lookup(before, key)
  }

  lemma UpsertElsewhere(device: seq<Entry>, up: bool, e: Entry, replace: bool, router: nat)
    requires UniqueNames(device) && e.key.router != router && Upsert(device, up, e, replace).Some?
    ensures SameLines(device, Upsert(device, up, e, replace).value, router)
  {
    hide Upsert, Lookup, UniqueNames;
    LookupAfterUpsert(device, up, e, replace, e.key);
    forall key: Key | key.router == router
      ensures Lookup(Upsert(device, up, e, replace).value, key) == Lookup(device, key)
    {
      LookupAfterUpsert(device, up, e, replace, key);
    }
  }

  lemma SetElsewhere(w: World, key: Key, enabled: bool, up: bool, router: nat)
    requires UniqueNames(w.device) && Retired(w, router)
    ensures SameLines(w.device, SetCustomer(w, key, enabled, up).device, router)
  {
    hide SetEnabled, Lookup, UniqueNames;
    var done := SetEnabled(w.device, RouterUp(w, key.router, up), key, enabled);
    if key in w.customers && done.Some? {
      SetNeedsRouter(w, key, enabled, up);
      LookupAfterSet(w.device, RouterUp(w, key.router, up), key, enabled, key);
      forall other: Key | other.router == router ensures Lookup(done.value, other) == Lookup(w.device, other) {
        LookupAfterSet(w.device, RouterUp(w, key.router, up), key, enabled, other);
      }
    }
  }

  lemma SetNeedsRouter(w: World, key: Key, enabled: bool, up: bool)
    requires SetEnabled(w.device, RouterUp(w, key.router, up), key, enabled).Some?
    ensures RouterUp(w, key.router, up)
  {
  }

  lemma WithoutElsewhere(device: seq<Entry>, key: Key, router: nat)
    requires UniqueNames(device) && key.router != router
    ensures SameLines(device, Without(device, key), router)
  {
    hide Without, Lookup;
    WithoutMembers(device, key);
    forall other: Key | other.router == router ensures Lookup(Without(device, key), other) == Lookup(device, other) {
      WithoutKeepsOthers(device, key, other);
    }
  }

  lemma {:induction false} ExpireElsewhere(w: World, rows: seq<Key>, now: int, unreachable: set<Key>, router: nat)
    requires UniqueNames(w.device) && Retired(w, router)
    ensures SameLines(w.device, ExpireAccess(w, rows, now, unreachable).device, router)
    decreases |rows|
  {
    hide SetCustomer, AccessDue, Lookup, UniqueNames;
    if rows != [] {
      var front, last := rows[..|rows| - 1], rows[|rows| - 1];
      ExpireElsewhere(w, front, now, unreachable, router);
      ExpireAccessOnly(w, front, now, unreachable);
      SetElsewhere(ExpireAccess(w, front, now, unreachable), last, false, last !in unreachable, router);
    }
  }

  lemma PrepareElsewhere(w: World, id: nat, password: string, up: bool, now: int, router: nat)
    requires UniqueNames(w.device) && Retired(w, router)
    ensures SameLines(w.device, Prepare(w, id, password, up, now).device, router)
  {
    hide Upsert, Lookup, UniqueNames;
    if id < |w.sessions| && Prepare(w, id, password, up, now).device != w.device {
      var row := w.sessions[id];
      var p, s := w.packages[row.package], WithCredentials(id, row, password, now);
      var key := Key(Hotspot, s.router, s.accessName.value);
      var e := HotspotEntry(key, s.accessPassword.value, p);
      UpsertNeedsRouter(w.device, RouterUp(w, s.router, up), e);
      UpsertElsewhere(w.device, RouterUp(w, s.router, up), e, true, router);
    }
  }

  lemma UpsertNeedsRouter(device: seq<Entry>, up: bool, e: Entry)
    ensures Upsert(device, up, e, true).Some? ==> up
  {
  }

  lemma ProvisionElsewhere(w: World, id: nat, row: Session, p: Package, password: string, up: bool, now: int,
                           router: nat)
    requires UniqueNames(w.device) && Retired(w, router) && Provision(w, id, row, p, password, up, now).Some?
    ensures SameLines(w.device, Provision(w, id, row, p, password, up, now).value.device, router)
  {
    hide Upsert, Lookup, UniqueNames, Renewed;
    var g := Provision(w, id, row, p, password, up, now).value;
    if g.device != w.device {
      var e := if p.service.Hotspot? then HotspotEntry(g.key, g.session.accessPassword.value, p)
               else Entry(g.key, g.customer.password, p.profile, true, None);
      UpsertNeedsRouter(w.device, RouterUp(w, row.router, up), e);
      UpsertElsewhere(w.device, RouterUp(w, row.router, up), e, true, router);
    }
  }

  lemma CompleteElsewhere(w: World, id: nat, receipt: Option<string>, password: string, up: bool, now: int, router: nat)
    requires UniqueNames(w.device) && Retired(w, router)
    ensures SameLines(w.device, Complete(w, id, receipt, password, up, now).device, router)
  {
    hide Provision, HasInvoice, Lookup, UniqueNames;
    if id < |w.sessions| && !w.sessions[id].status.Provisioned? && w.sessions[id].package in w.packages {
      var row := w.sessions[id].(status := Provisioning, receipt := receipt, updatedAt := now);
      if Provision(w, id, row, w.packages[row.package], password, up, now).Some? {
        ProvisionElsewhere(w, id, row, w.packages[row.package], password, up, now, router);
      }
    }
  }

  lemma CleanupElsewhere(w: World, id: nat, up: bool, now: int, router: nat)
    requires UniqueNames(w.device) && Retired(w, router)
    ensures SameLines(w.device, Cleanup(w, id, up, now).device, router)
  {
    hide Without, Lookup, UniqueNames;
    if Cleanup(w, id, up, now).device != w.device {
      var s := w.sessions[id];
      WithoutElsewhere(w.device, Key(Hotspot, s.router, s.accessName.value), router);
    }
  }

  lemma AccessElsewhere(settings: Settings, w: World, step: Step, router: nat)
    requires UniqueNames(w.device) && Retired(w, router) && IsAccessStep(step)
    ensures SameLines(w.device, Next(settings, w, step).device, router)
  {
    hide Upsert, Without, Lookup, UniqueNames, SetCustomer, ExpireAccess;
    match step
    case StepCreateCustomer(service, at, name, password, package, up, now) =>
      if Next(settings, w, step).device != w.device {
        var p := w.packages[package];
        UpsertElsewhere(w.device, up, Entry(Key(service, at, Typed(name)), password, p.profile, true,
                                            if service.Hotspot? then Some(p.validity) else None), false, router);
      }
    case StepSetCustomer(key, enabled, up) => SetElsewhere(w, key, enabled, up, router);
    case StepDropCustomer(key, up) =>
      if Next(settings, w, step).device != w.device {
        WithoutElsewhere(w.device, key, router);
      }
    case StepExpireAccess(rows, now, unreachable) => ExpireElsewhere(w, rows, now, unreachable, router);
  }

  lemma StepElsewhere(settings: Settings, w: World, step: Step, router: nat)
    requires UniqueNames(w.device) && Retired(w, router)
    ensures SameLines(w.device, Next(settings, w, step).device, router)
  {
    hide CreatePayment, Prepare, FinishInitiation, Complete, Cleanup, CreateCustomer, SetCustomer, DropCustomer,
         ExpireAccess, Poll, RecordQuery, CallbackFails, MarkReview, KopoAnswer, ExpireSessions, DeleteRouter,
         PutPackage, PutRouter, Lookup, UniqueNames;
    if IsQuiet(step) {
      QuietSteps(settings, w, step);
    } else if IsAccessStep(step) {
      AccessElsewhere(settings, w, step, router);
    } else {
      match step
      case StepCreatePayment(request, now, stamp) => CreateMoves(settings, w, request, now, stamp);
      case StepPrepare(id, password, up, now) => PrepareElsewhere(w, id, password, up, now, router);
      case StepFinishInitiation(id, answer, now) => FinishDevice(w, id, answer, now);
      case StepComplete(id, receipt, password, up, now) => CompleteElsewhere(w, id, receipt, password, up, now, router);
      case StepCleanup(id, up, now) => CleanupElsewhere(w, id, up, now, router);
    }
  }

  lemma FinishDevice(w: World, id: nat, answer: Option<string>, now: int)
    ensures FinishInitiation(w, id, answer, now).device == w.device
  {
  }

  // ------------------------------------------------------------------ its sessions

  function SessionsOf(sessions: seq<Session>, router: nat): nat {
    if sessions == [] then 0 else
      SessionsOf(sessions[..|sessions| - 1], router) + if sessions[|sessions| - 1].router == router then 1 else 0
  }

  lemma {:induction false} SessionsOfSame(a: seq<Session>, b: seq<Session>, router: nat)
    requires |a| <= |b| && (forall i | 0 <= i < |a| :: a[i].router == b[i].router)
    requires forall i | |a| <= i < |b| :: b[i].router != router
    ensures SessionsOf(a, router) == SessionsOf(b, router)
    decreases |b|
  {
    if b != [] {
      SessionsOfSame(if |a| == |b| then a[..|a| - 1] else a, b[..|b| - 1], router);
    }
  }

  lemma NoNewSession(settings: Settings, w: World, step: Step, router: nat)
    requires Retired(w, router)
    ensures SessionsOf(Next(settings, w, step).sessions, router) == SessionsOf(w.sessions, router)
  {
    hide Next;
    var v := Next(settings, w, step);
    StepCreates(settings, w, step);
    forall i | 0 <= i < |w.sessions| ensures w.sessions[i].router == v.sessions[i].router {
      StepMoves(settings, w, step, i);
    }
    if |v.sessions| > |w.sessions| {
      NewSessionElsewhere(settings, w, step, router);
    }
    SessionsOfSame(w.sessions, v.sessions, router);
  }

  lemma NewSessionElsewhere(settings: Settings, w: World, step: Step, router: nat)
    requires Retired(w, router) && step.StepCreatePayment? && |Next(settings, w, step).sessions| == |w.sessions| + 1
    ensures Next(settings, w, step).sessions[|w.sessions|].router != router
  {
    hide FindByKey, RecentCount;
  }

  /** Once a router is deleted, in every run no payment is started for it again, and its users
    stay exactly as they were, whatever payments, jobs and operators do. */
  lemma {:induction false} DeletedRouterIsLeftAlone(settings: Settings, w: World, steps: seq<Step>, router: nat)
    requires UniqueNames(w.device) && Retired(w, router)
    ensures
      var v := Run(settings, w, steps);
      Retired(v, router) && SameLines(w.device, v.device, router)
      && SessionsOf(v.sessions, router) == SessionsOf(w.sessions, router)
    decreases |steps|
  {
    hide Next, Retired, UniqueNames, Lookup;
    if steps != [] {
      StepKeepsRetired(settings, w, steps[0], router);
      StepElsewhere(settings, w, steps[0], router);
      NoNewSession(settings, w, steps[0], router);
      DeletedRouterIsLeftAlone(settings, Next(settings, w, steps[0]), steps[1..], router);
    }
  }

  /** So from its deletion on: its users keep the lines they had, and it gets no session. */
  lemma NothingAfterDeletion(settings: Settings, w: World, steps: seq<Step>, router: nat, now: int)
    requires UniqueNames(w.device) && router in w.routers && !w.routers[router].deleted
    ensures
      var v := Run(settings, w, [StepDeleteRouter(router, now)] + steps);
      && Retired(v, router) && SameLines(w.device, v.device, router)
      && SessionsOf(v.sessions, router) == SessionsOf(w.sessions, router)
  {
    hide Run, Retired, SameLines, UniqueNames, SessionsOf;
    var u := DeleteRouter(w, router, now);
    RunAppend(settings, w, [StepDeleteRouter(router, now)], steps);
    RunOne(settings, w, StepDeleteRouter(router, now));
    DeletionRetires(w, router, now);
    SessionsOfSame(w.sessions, u.sessions, router);
    DeletedRouterIsLeftAlone(settings, u, steps, router);
  }

  // ------------------------------------------------------------------ packages

  /** Every package is of some router of the table. */
  predicate PackagesPlaced(w: World) { forall p | p in w.packages :: w.packages[p].router in w.routers }

  lemma StepKeepsPackagesPlaced(settings: Settings, w: World, step: Step)
    requires PackagesPlaced(w)
    ensures PackagesPlaced(Next(settings, w, step))
  {
    hide CreatePayment, Prepare, FinishInitiation, Complete, Cleanup, CreateCustomer, SetCustomer, DropCustomer,
         ExpireAccess, Poll, RecordQuery, CallbackFails, MarkReview, KopoAnswer, ExpireSessions;
    if step.StepPutPackage? || step.StepPutRouter? || step.StepDeleteRouter? {
    } else {
      OtherStepsKeepRouters(settings, w, step);
      OtherStepsKeepPackages(settings, w, step);
    }
  }

  lemma OtherStepsKeepPackages(settings: Settings, w: World, step: Step)
    requires !step.StepDeleteRouter? && !step.StepPutRouter? && !step.StepPutPackage?
    ensures Next(settings, w, step).packages == w.packages
  {
    hide Upsert, SetEnabled, Delete, Provision, RouterUp, HasInvoice, FindByKey, RecentCount, ExpireAccess,
         WithCredentials;
    if step.StepExpireAccess? {
      ExpireAccessOnly(w, step.rows, step.now, step.unreachable);
    }
  }

  /** In every run, whatever routers are deleted, every package is of a router in the table. */
  lemma {:induction false} PackagesStayPlaced(settings: Settings, w: World, steps: seq<Step>)
    requires PackagesPlaced(w)
    ensures PackagesPlaced(Run(settings, w, steps))
    decreases |steps|
  {
    hide Next, PackagesPlaced;
    if steps != [] {
      StepKeepsPackagesPlaced(settings, w, steps[0]);
      PackagesStayPlaced(settings, Next(settings, w, steps[0]), steps[1..]);
    }
  }
}
