/** What one step can do to one payment session, whichever of the entry points takes it. */
module PaymentMoves {
  import opened Text
  import opened AccessTables
  import opened PaymentModel
  import opened PaymentAccess

  // ------------------------------------------------------------------ what a step does to a session

  /** What was bought, by whom, from where and for how much. */
  predicate SameDeal(s: Session, t: Session) {
    t == s.(status := t.status, updatedAt := t.updatedAt, requestId := t.requestId, receipt := t.receipt,
            accessName := t.accessName, accessPassword := t.accessPassword, credentialsUntil := t.credentialsUntil,
            task := t.task)
  }

  /** The initiation's last write, which does not look at the status, comes after a completion. */
  predicate Overtaken(w: World, step: Step, i: nat) {
    && step.StepFinishInitiation? && step.id == i && step.answer.Some?
    && i < |w.sessions| && w.sessions[i].task == Asking(true)
  }

  predicate Moves(w: World, step: Step, i: nat, s: Session, t: Session) {
    && SameDeal(s, t)
    && (s.task.Done? ==> t.task.Done?)
    && (s.requestId.Some? ==> t.requestId.Some?)
    && (s.status.Provisioned? && !t.status.Provisioned? <==> s.status.Provisioned? && Overtaken(w, step, i))
    && (!s.status.Provisioned? && t.status.Provisioned? ==> step.StepComplete? && step.id == i)
  }

  lemma ProvisionKeepsDeal(w: World, id: nat, row: Session, p: Package, password: string, up: bool, now: int)
    ensures
      var g := Provision(w, id, row, p, password, up, now);
      g.Some? ==>
        && SameDeal(row, g.value.session)
        && g.value.session.task == row.task && g.value.session.requestId == row.requestId
  {
    hide Upsert, RouterUp;
  }

  lemma CompleteMoves(w: World, id: nat, receipt: Option<string>, password: string, up: bool, now: int)
    requires id < |w.sessions|
    ensures
      var s, v := w.sessions[id], Complete(w, id, receipt, password, up, now);
      && |v.sessions| == |w.sessions| && v.sessions == w.sessions[id := v.sessions[id]]
      && SameDeal(s, v.sessions[id]) && s.task == v.sessions[id].task
      && s.requestId == v.sessions[id].requestId && (s.status.Provisioned? ==> v == w)
  {
    hide Provision, HasInvoice;
    var row := w.sessions[id].(status := Provisioning, receipt := receipt, updatedAt := now);
    if row.package in w.packages {
      ProvisionKeepsDeal(w, id, row, w.packages[row.package], password, up, now);
    }
  }

  lemma PrepareMoves(w: World, id: nat, password: string, up: bool, now: int)
    ensures
      var v := Prepare(w, id, password, up, now);
      && |v.sessions| == |w.sessions| && v.ledger == w.ledger && (id >= |w.sessions| ==> v == w)
      && (id < |w.sessions| ==>
            && v.sessions == w.sessions[id := v.sessions[id]]
            && SameDeal(w.sessions[id], v.sessions[id]) && v.sessions[id].status == w.sessions[id].status
            && v.sessions[id].requestId == w.sessions[id].requestId && (w.sessions[id].task.Done? ==> v == w))
  {
    hide Upsert, RouterUp;
  }

  lemma CleanupMoves(w: World, id: nat, up: bool, now: int)
    ensures
      var v := Cleanup(w, id, up, now);
      && |v.sessions| == |w.sessions| && v.ledger == w.ledger && (id >= |w.sessions| ==> v == w)
      && (id < |w.sessions| ==>
            && v.sessions == w.sessions[id := v.sessions[id]]
            && SameDeal(w.sessions[id], v.sessions[id]) && v.sessions[id].status == w.sessions[id].status
            && v.sessions[id].requestId == w.sessions[id].requestId && v.sessions[id].task == w.sessions[id].task)
  {
    hide Delete, RouterUp;
  }

  lemma FinishMoves(w: World, id: nat, answer: Option<string>, now: int)
    ensures
      var v := FinishInitiation(w, id, answer, now);
      && |v.sessions| == |w.sessions| && v.ledger == w.ledger && (id >= |w.sessions| ==> v == w)
      && (id < |w.sessions| ==>
            && v.sessions == w.sessions[id := v.sessions[id]]
            && Moves(w, StepFinishInitiation(id, answer, now), id, w.sessions[id], v.sessions[id]))
  {
  }

  lemma CreateMoves(settings: Settings, w: World, r: Request, now: int, stamp: int)
    ensures
      var v := CreatePayment(settings, w, r, now, stamp).0;
      && v == w.(sessions := v.sessions)
      && (v == w || (|v.sessions| == |w.sessions| + 1 && v.sessions[..|w.sessions|] == w.sessions
                     && (forall i | 0 <= i < |w.sessions| :: v.sessions[i] == w.sessions[i])
                     && v.sessions[|w.sessions|].status.Created?))
  {
    hide FindByKey, RecentCount;
  }

  lemma PlainStepMoves(settings: Settings, w: World, step: Step, i: nat)
    requires i < |w.sessions| && (IsQuiet(step) || IsAccessStep(step))
    ensures |w.sessions| <= |Next(settings, w, step).sessions|
    ensures Moves(w, step, i, w.sessions[i], Next(settings, w, step).sessions[i])
  {
    hide Next;
    var v := Next(settings, w, step);
    if IsQuiet(step) {
      QuietSteps(settings, w, step);
      assert Settles(w.sessions[i], v.sessions[i]);
    } else {
      AccessSteps(settings, w, step);
    }
  }

  /** Every step: what was bought never changes, only a completion provisions, and only an
    initiation that finishes after it takes the status back. */
  lemma StepMoves(settings: Settings, w: World, step: Step, i: nat)
    requires i < |w.sessions|
    ensures |w.sessions| <= |Next(settings, w, step).sessions|
    ensures Moves(w, step, i, w.sessions[i], Next(settings, w, step).sessions[i])
  {
    hide CreatePayment, Prepare, FinishInitiation, Complete, Cleanup, CreateCustomer, SetCustomer, DropCustomer,
         ExpireAccess, Poll, RecordQuery, CallbackFails, MarkReview, KopoAnswer, ExpireSessions, DeleteRouter,
         PutPackage, PutRouter;
    if IsQuiet(step) || IsAccessStep(step) {
      PlainStepMoves(settings, w, step, i);
    } else {
      match step
      case StepCreatePayment(request, now, stamp) => CreateMoves(settings, w, request, now, stamp);
      case StepPrepare(id, password, up, now) => PrepareMoves(w, id, password, up, now);
      case StepFinishInitiation(id, answer, now) => FinishMoves(w, id, answer, now);
      case StepComplete(id, receipt, password, up, now) =>
        if CanComplete(w, id) {
          CompleteMoves(w, id, receipt, password, up, now);
        }
      case StepCleanup(id, up, now) => CleanupMoves(w, id, up, now);
    }
  }

  /** Only a new payment request adds a session, as created. */
  lemma StepCreates(settings: Settings, w: World, step: Step)
    ensures
      var v := Next(settings, w, step);
      || |v.sessions| == |w.sessions|
      || (step.StepCreatePayment? && |v.sessions| == |w.sessions| + 1 && v.sessions[|w.sessions|].status.Created?)
  {
    hide CreatePayment, Prepare, FinishInitiation, Complete, Cleanup, CreateCustomer, SetCustomer, DropCustomer,
         ExpireAccess, Poll, RecordQuery, CallbackFails, MarkReview, KopoAnswer, ExpireSessions, DeleteRouter,
         PutPackage, PutRouter;
    if IsQuiet(step) {
      QuietSteps(settings, w, step);
    } else if IsAccessStep(step) {
      AccessSteps(settings, w, step);
    } else {
      match step
      case StepCreatePayment(request, now, stamp) => CreateMoves(settings, w, request, now, stamp);
      case StepPrepare(id, password, up, now) => PrepareMoves(w, id, password, up, now);
      case StepFinishInitiation(id, answer, now) => FinishMoves(w, id, answer, now);
      case StepComplete(id, receipt, password, up, now) =>
        if CanComplete(w, id) {
          CompleteMoves(w, id, receipt, password, up, now);
        }
      case StepCleanup(id, up, now) => CleanupMoves(w, id, up, now);
    }
  }

  /** In every run: what was bought never changes, and a request id once stored stays. */
  lemma {:induction false} RunKeepsDeal(settings: Settings, w: World, steps: seq<Step>, i: nat)
    requires i < |w.sessions|
    ensures |w.sessions| <= |Run(settings, w, steps).sessions|
    ensures SameDeal(w.sessions[i], Run(settings, w, steps).sessions[i])
    ensures w.sessions[i].requestId.Some? ==> Run(settings, w, steps).sessions[i].requestId.Some?
    decreases |steps|
  {
    hide Next;
    if steps != [] {
      StepMoves(settings, w, steps[0], i);
      RunKeepsDeal(settings, Next(settings, w, steps[0]), steps[1..], i);
    }
  }
}
