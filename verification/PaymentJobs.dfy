/** The entry points that read a provider's answer, as runs of the payment system: both callbacks,
  the browser's poll, the reconciliation job, the cleanup job and the expiry of access. */
module PaymentJobs {
  import opened Text
  import opened AccessTables
  import opened PaymentModel
  import opened PaymentAccess
  import opened PaymentMoves
  import opened PaymentLedger
  import opened PaymentHotspot

  /** What `complete_payment` reads from outside: a fresh password, the router, the clock. */
  datatype Call = Call(password: string, up: bool, now: int)

  function CompleteStep(id: nat, receipt: Option<string>, call: Call): Step {
    StepComplete(id, receipt, call.password, call.up, call.now)
  }

  // ------------------------------------------------------------------ callbacks

  datatype MpesaCallback =
    MpesaCallback(requestId: Option<string>, success: bool, amount: Option<int>, phone: string, receipt: Option<string>)

  /** The status query that may follow a callback. */
  datatype Verification = Disabled | QueryFails | Verified(success: bool)

  function FindByRequest(sessions: seq<Session>, requestId: string): (i: Option<nat>)
    ensures i.Some? ==> i.value < |sessions| && sessions[i.value].requestId == Some(requestId)
    ensures i.None? ==> forall j | 0 <= j < |sessions| :: sessions[j].requestId != Some(requestId)
  {
    if sessions == [] then None
    else
      var n := |sessions| - 1;
      match FindByRequest(sessions[..n], requestId)
      case Some(i) => Some(i)
      case None => if sessions[n].requestId == Some(requestId) then Some(n) else None
  }

  /** `process_mpesa_callback`; `meanwhile` are the steps of others between the transaction that
    reads the session and the one that settles it, among them those during the status query. */
  function MpesaCallbackSteps(w: World, c: MpesaCallback, verification: Verification, meanwhile: seq<Step>, call: Call)
    : seq<Step>
  {
    if c.requestId.None? || c.requestId.value == "" then []
    else match FindByRequest(w.sessions, c.requestId.value)
         case None => []
         case Some(id) =>
           var s := w.sessions[id];
           if !s.provider.Mpesa? || CallbackIgnored(s) then []
           else if !c.success then [StepCallbackFails(id, call.now)]
           else if c.amount != Some(s.amount) || c.phone != s.phone then meanwhile + [StepMarkReview(id, call.now)]
           else if verification.QueryFails? then meanwhile
           else if verification == Verified(false) then meanwhile + [StepMarkReview(id, call.now)]
           else meanwhile + [CompleteStep(id, c.receipt, call)]
  }

  /** A verified success for exactly this session. */
  predicate MpesaAccepts(w: World, c: MpesaCallback, verification: Verification, id: nat) {
    && id < |w.sessions| && c.requestId.Some? && c.requestId.value != ""
    && FindByRequest(w.sessions, c.requestId.value) == Some(id)
    && w.sessions[id].provider.Mpesa? && !w.sessions[id].status.ManualReview?
    && c.success && c.amount == Some(w.sessions[id].amount) && c.phone == w.sessions[id].phone
    && (verification.Disabled? || verification == Verified(true))
  }

  datatype KopoCallback =
    KopoCallback(id: Option<nat>, success: bool, amount: Option<int>, phone: string, receipt: Option<string>)

  /** `process_kopokopo_callback`, which completes in a transaction of its own. */
  function KopoCallbackSteps(w: World, c: KopoCallback, meanwhile: seq<Step>, call: Call): seq<Step> {
    if c.id.None? || c.id.value >= |w.sessions| then []
    else
      var id, s := c.id.value, w.sessions[c.id.value];
      var matches := c.amount == Some(s.amount) && c.phone == s.phone;
      if !s.provider.Kopokopo? || CallbackIgnored(s) then []
      else if c.success && matches then meanwhile + [CompleteStep(id, c.receipt, call)]
      else [StepKopoAnswer(id, c.success, matches, call.now)]
  }

  predicate KopoAccepts(w: World, c: KopoCallback, id: nat) {
    && id < |w.sessions| && c.id == Some(id) && w.sessions[id].provider.Kopokopo?
    && !w.sessions[id].status.ManualReview?
    && c.success && c.amount == Some(w.sessions[id].amount) && c.phone == w.sessions[id].phone
  }

  predicate IsCompletionOf(step: Step, id: nat) { step.StepComplete? && step.id == id }

  /** One more step after a run provisions the session only if it is its completion, and then
    exactly when access can be provisioned. */
  lemma LastStepProvisions(settings: Settings, w: World, meanwhile: seq<Step>, step: Step, id: nat)
    requires AccessInv(w) && !IsProvisioned(Run(settings, w, meanwhile), id)
    requires id < |w.sessions| && (step.StepComplete? && step.id == id ==> CanComplete(w, id))
    ensures
      var u, v := Run(settings, w, meanwhile), Run(settings, w, meanwhile + [step]);
      && id < |u.sessions| && id < |v.sessions|
      && (IsProvisioned(v, id) <==> IsCompletionOf(step, id) && CanProvision(u, id, step.up))
  {
    hide Next, Complete, CanProvision, AccessInv;
    var u := Run(settings, w, meanwhile);
    StoresAgree(settings, w, meanwhile);
    RunKeepsDeal(settings, w, meanwhile, id);
    RunAppend(settings, w, meanwhile, [step]);
    RunOne(settings, u, step);
    StepMoves(settings, u, step, id);
    if IsCompletionOf(step, id) {
      CompletionIsAStep(settings, u, step);
      CompletionSucceedsExactly(u, id, step.receipt, step.password, step.up, step.now);
    }
  }

  lemma CompletionIsAStep(settings: Settings, w: World, step: Step)
    requires step.StepComplete? && CanComplete(w, step.id)
    ensures Next(settings, w, step) == Complete(w, step.id, step.receipt, step.password, step.up, step.now)
  {
    hide Complete;
  }

  /** An M-Pesa callback provisions a session exactly when it reports, for that session's request,
    a success with its amount and phone that the query confirms, and access can be provisioned,
    whatever others do meanwhile short of provisioning the session themselves. */
  lemma MpesaCallbackProvisionsExactly(settings: Settings, w: World, c: MpesaCallback, verification: Verification,
                                       meanwhile: seq<Step>, call: Call, id: nat)
    requires AccessInv(w) && id < |w.sessions|
    requires !IsProvisioned(w, id) && !IsProvisioned(Run(settings, w, meanwhile), id)
    ensures
      var u := Run(settings, w, meanwhile);
      var v := Run(settings, w, MpesaCallbackSteps(w, c, verification, meanwhile, call));
      && id < |u.sessions|
      && (IsProvisioned(v, id) <==> MpesaAccepts(w, c, verification, id) && CanProvision(u, id, call.up))
  {
    hide Run, CanProvision, AccessInv, FindByRequest;
    RunKeepsDeal(settings, w, meanwhile, id);
    RunNothing(settings, w);
    if c.requestId.Some? && FindByRequest(w.sessions, c.requestId.value).Some? {
      var found := FindByRequest(w.sessions, c.requestId.value).value;
      LastStepProvisions(settings, w, [], StepCallbackFails(found, call.now), id);
      LastStepProvisions(settings, w, meanwhile, StepMarkReview(found, call.now), id);
      LastStepProvisions(settings, w, meanwhile, CompleteStep(found, c.receipt, call), id);
      assert [] + [StepCallbackFails(found, call.now)] == [StepCallbackFails(found, call.now)];
    }
  }

  lemma KopoCallbackProvisionsExactly(settings: Settings, w: World, c: KopoCallback, meanwhile: seq<Step>, call: Call,
                                      id: nat)
    requires AccessInv(w) && id < |w.sessions|
    requires !IsProvisioned(w, id) && !IsProvisioned(Run(settings, w, meanwhile), id)
    ensures
      var u := Run(settings, w, meanwhile);
      var v := Run(settings, w, KopoCallbackSteps(w, c, meanwhile, call));
      && id < |u.sessions|
      && (IsProvisioned(v, id) <==> KopoAccepts(w, c, id) && CanProvision(u, id, call.up))
  {
    hide Run, CanProvision, AccessInv;
    RunKeepsDeal(settings, w, meanwhile, id);
    RunNothing(settings, w);
    if c.id.Some? && c.id.value < |w.sessions| && w.sessions[c.id.value].provider.Kopokopo? {
      var s := w.sessions[c.id.value];
      var answer := StepKopoAnswer(c.id.value, c.success, c.amount == Some(s.amount) && c.phone == s.phone, call.now);
      LastStepProvisions(settings, w, [], answer, id);
      LastStepProvisions(settings, w, meanwhile, CompleteStep(c.id.value, c.receipt, call), id);
      assert [] + [answer] == [answer];
    }
  }

  // ------------------------------------------------------------------ polls

  /** What a status query reports. */
  datatype Answer = NoAnswer | Paid(receipt: Option<string>) | NotPaid

  function AnswerSteps(id: nat, answer: Answer, call: Call): seq<Step> {
    match answer
    case NoAnswer => []
    case Paid(receipt) => [CompleteStep(id, receipt, call)]
    case NotPaid => [StepRecordQuery(id, call.now)]
  }

  /** `get_public_payment`; `meanwhile` are the steps of others between its first transaction and
    the answer of the query, if it asks. */
  function PollSteps(settings: Settings, w: World, id: nat, tokenOk: bool, now: int, meanwhile: seq<Step>,
                     answer: Answer, call: Call): seq<Step> {
    var asks := Poll(settings, w, id, tokenOk, now).1.Some?;
    [StepPoll(id, tokenOk, now)] + if asks then meanwhile + AnswerSteps(id, answer, call) else []
  }

  // ------------------------------------------------------------------ reconciliation

  /** A session the job asks about; `meanwhile` are the steps of others while it waits. */
  datatype Candidate = Candidate(id: nat, meanwhile: seq<Step>, answer: Answer, call: Call)

  datatype Tally = Tally(world: World, provisioned: nat, pending: nat, raised: bool)

  /** `complete_payment` raised: its failure write says so. */
  predicate Raises(after: World, id: nat) { id < |after.sessions| && after.sessions[id].status.ProvisioningFailed? }

  function CandidateSteps(r: Candidate): seq<Step> { r.meanwhile + AnswerSteps(r.id, r.answer, r.call) }

  /** The loop of `reconcile_pending_payments` over the candidates; an error of `complete_payment`
    ends it. */
  function Reconcile(settings: Settings, w: World, rows: seq<Candidate>): Tally
    decreases |rows|
  {
    if rows == [] then Tally(w, 0, 0, false)
    else
      var v := Run(settings, w, CandidateSteps(rows[0]));
      if rows[0].answer.Paid? && Raises(v, rows[0].id) then Tally(v, 0, 0, true)
      else
        var t := Reconcile(settings, v, rows[1..]);
        if rows[0].answer.Paid? then t.(provisioned := t.provisioned + 1) else t.(pending := t.pending + 1)
  }

  function ReconcileSteps(settings: Settings, w: World, rows: seq<Candidate>): seq<Step>
    decreases |rows|
  {
    if rows == [] then []
    else
      var steps := CandidateSteps(rows[0]);
      var v := Run(settings, w, steps);
      if rows[0].answer.Paid? && Raises(v, rows[0].id) then steps else steps + ReconcileSteps(settings, v, rows[1..])
  }

  lemma {:induction false} ReconcileIsARun(settings: Settings, w: World, rows: seq<Candidate>)
    ensures Reconcile(settings, w, rows).world == Run(settings, w, ReconcileSteps(settings, w, rows))
    decreases |rows|
  {
    hide Next, CandidateSteps, Raises;
    if rows != [] {
      var steps := CandidateSteps(rows[0]);
      var v := Run(settings, w, steps);
      ReconcileIsARun(settings, v, rows[1..]);
      RunAppend(settings, w, steps, ReconcileSteps(settings, v, rows[1..]));
    }
  }

  function PaidAnswers(rows: seq<Candidate>): nat {
    if rows == [] then 0 else (if rows[0].answer.Paid? then 1 else 0) + PaidAnswers(rows[1..])
  }

  /** The rows the job reads are M-Pesa sessions with a request id. */
  predicate Reconcilable(w: World, rows: seq<Candidate>) {
    forall r | r in rows :: r.id < |w.sessions| && w.sessions[r.id].provider.Mpesa? && w.sessions[r.id].requestId.Some?
  }

  /** They stay that, whatever happens. */
  lemma RunKeepsReconcilable(settings: Settings, w: World, steps: seq<Step>, rows: seq<Candidate>)
    requires Reconcilable(w, rows)
    ensures Reconcilable(Run(settings, w, steps), rows)
  {
    hide Run;
    var v := Run(settings, w, steps);
    forall r | r in rows
      ensures r.id < |v.sessions| && v.sessions[r.id].provider.Mpesa? && v.sessions[r.id].requestId.Some?
    {
      RunKeepsDeal(settings, w, steps, r.id);
    }
  }

  /** When the job runs to its end, every candidate the provider reports as paid is provisioned,
    whatever others did while it waited, and the job's counts are those of the answers; when it is
    cut short, an access could not be provisioned and is left for a retry. */
  lemma {:induction false} ReconciliationSettles(settings: Settings, w: World, rows: seq<Candidate>)
    requires LedgerInv(w, false) && Reconcilable(w, rows)
    ensures
      var t := Reconcile(settings, w, rows);
      && LedgerInv(t.world, false)
      && (!t.raised ==> t.provisioned == PaidAnswers(rows) && t.provisioned + t.pending == |rows|
                        && forall r | r in rows && r.answer.Paid? :: IsProvisioned(t.world, r.id))
      && (t.raised ==> exists r | r in rows :: r.answer.Paid? && Raises(t.world, r.id))
    decreases |rows|
  {
    hide Next, LedgerInv, Run;
    if rows != [] {
      var head := rows[0];
      var v := Run(settings, w, CandidateSteps(head));
      RunKeepsReconcilable(settings, w, CandidateSteps(head), rows);
      RunKeepsLedger(settings, w, CandidateSteps(head), false);
      if !(head.answer.Paid? && Raises(v, head.id)) {
        ReconciliationSettles(settings, v, rows[1..]);
        ReconcileIsARun(settings, v, rows[1..]);
        if head.answer.Paid? {
          PaidCandidateIsProvisioned(settings, w, head, rows);
          ProvisionedIsFinal(settings, v, ReconcileSteps(settings, v, rows[1..]), false, head.id);
        }
        assert rows == [head] + rows[1..];
      }
    }
  }

  lemma PaidCandidateIsProvisioned(settings: Settings, w: World, head: Candidate, rows: seq<Candidate>)
    requires LedgerInv(w, false) && Reconcilable(w, rows) && head in rows && head.answer.Paid?
    ensures
      var v := Run(settings, w, CandidateSteps(head));
      head.id < |v.sessions| && (v.sessions[head.id].status.Provisioned? || Raises(v, head.id))
  {
    hide Next, LedgerInv, Run, Raises;
    var u := Run(settings, w, head.meanwhile);
    RunKeepsReconcilable(settings, w, head.meanwhile, rows);
    RunKeepsLedger(settings, w, head.meanwhile, false);
    InvAccess(u, false);
    PaidIsProvisioned(settings, u, head.id, head.answer.receipt, head.call);
    RunAppend(settings, w, head.meanwhile, AnswerSteps(head.id, head.answer, head.call));
  }

  lemma PaidIsProvisioned(settings: Settings, w: World, id: nat, receipt: Option<string>, call: Call)
    requires AccessInv(w) && CanComplete(w, id)
    ensures
      var v := Run(settings, w, [CompleteStep(id, receipt, call)]);
      id < |v.sessions| && (v.sessions[id].status.Provisioned? || Raises(v, id))
  {
    hide Complete, CanProvision, AccessInv;
    RunOne(settings, w, CompleteStep(id, receipt, call));
    CompleteMoves(w, id, receipt, call.password, call.up, call.now);
    if !w.sessions[id].status.Provisioned? {
      CompletionSucceedsExactly(w, id, receipt, call.password, call.up, call.now);
    }
  }

  // ------------------------------------------------------------------ cleanup of failed sessions

  /** A row of the job; `meanwhile` are the steps of others before its turn. */
  datatype Cleaning = Cleaning(id: nat, meanwhile: seq<Step>, up: bool, now: int)

  datatype CleanTally = CleanTally(world: World, cleaned: nat, failed: nat)

  /** A failed session with an unpaid account, whether or not its router answers. */
  predicate Removable(w: World, i: nat) {
    && i < |w.sessions| && w.sessions[i].status.Failed? && w.sessions[i].service.Hotspot?
    && w.sessions[i].accessName.Some?
    && var key := Key(Hotspot, w.sessions[i].router, w.sessions[i].accessName.value);
       key in w.customers && w.customers[key].expires.None?
  }

  predicate Cleans(w: World, i: nat, up: bool) { Removable(w, i) && RouterUp(w, w.sessions[i].router, up) }

  /** The loop of `cleanup_failed_prepared_hotspot_sessions`: a failed router call leaves its row. */
  function CleanAll(settings: Settings, w: World, rows: seq<Cleaning>): CleanTally
    decreases |rows|
  {
    if rows == [] then CleanTally(w, 0, 0)
    else
      var r := rows[0];
      var u := Run(settings, w, r.meanwhile);
      var t := CleanAll(settings, Cleanup(u, r.id, r.up, r.now), rows[1..]);
      if Cleans(u, r.id, r.up) then t.(cleaned := t.cleaned + 1)
      else if Removable(u, r.id) then t.(failed := t.failed + 1)
      else t
  }

  function CleanSteps(rows: seq<Cleaning>): seq<Step> {
    if rows == [] then []
    else rows[0].meanwhile + ([StepCleanup(rows[0].id, rows[0].up, rows[0].now)] + CleanSteps(rows[1..]))
  }

  /** How many customer rows others added, less those they removed, while the job ran. */
  function Drift(settings: Settings, w: World, rows: seq<Cleaning>): int
    decreases |rows|
  {
    if rows == [] then 0
    else
      var u := Run(settings, w, rows[0].meanwhile);
      |u.customers| - |w.customers| + Drift(settings, Cleanup(u, rows[0].id, rows[0].up, rows[0].now), rows[1..])
  }

  lemma CleansOne(w: World, id: nat, up: bool, now: int)
    requires AccessInv(w)
    ensures |Cleanup(w, id, up, now).customers| + (if Cleans(w, id, up) then 1 else 0) == |w.customers|
  {
    hide Without, RouterUp, Agrees, SessionOk;
    var v := Cleanup(w, id, up, now);
    if Cleans(w, id, up) {
      var key := Key(Hotspot, w.sessions[id].router, w.sessions[id].accessName.value);
      assert v.customers.Keys == w.customers.Keys - {key};
    }
  }

  lemma CleanStepsBegin(settings: Settings, w: World, rows: seq<Cleaning>)
    requires rows != []
    ensures
      var u := Run(settings, w, rows[0].meanwhile);
      Run(settings, w, CleanSteps(rows))
      == Run(settings, Cleanup(u, rows[0].id, rows[0].up, rows[0].now), CleanSteps(rows[1..]))
  {
    hide Run, Cleanup;
    var first := StepCleanup(rows[0].id, rows[0].up, rows[0].now);
    var u := Run(settings, w, rows[0].meanwhile);
    RunAppend(settings, w, rows[0].meanwhile, [first] + CleanSteps(rows[1..]));
    RunAppend(settings, u, [first], CleanSteps(rows[1..]));
    RunOne(settings, u, first);
  }

  /** The job is a run of cleanup steps among those of others, and its count is the number of
    customer rows it removed itself. */
  lemma {:induction false} CleanupCounts(settings: Settings, w: World, rows: seq<Cleaning>)
    requires AccessInv(w)
    ensures
      var t := CleanAll(settings, w, rows);
      && t.world == Run(settings, w, CleanSteps(rows))
      && t.cleaned + |t.world.customers| == |w.customers| + Drift(settings, w, rows)
      && t.cleaned + t.failed <= |rows|
    decreases |rows|
  {
    hide AccessInv, Cleanup, Cleans, Removable, Run;
    RunNothing(settings, w);
    if rows != [] {
      var r := rows[0];
      var u := Run(settings, w, r.meanwhile);
      StoresAgree(settings, w, r.meanwhile);
      CleansOne(u, r.id, r.up, r.now);
      CleanupKeepsInv(u, r.id, r.up, r.now);
      CleanupCounts(settings, Cleanup(u, r.id, r.up, r.now), rows[1..]);
      CleanStepsBegin(settings, w, rows);
    }
  }

  lemma CleanupLeavesRemovable(w: World, id: nat, up: bool, now: int, other: nat)
    requires AccessInv(w) && other != id && Removable(w, other)
    ensures Removable(Cleanup(w, id, up, now), other)
  {
    hide Agrees, Delete, RouterUp;
    assert SessionOk(w.packages, other, w.sessions[other]);
    if id < |w.sessions| {
      assert SessionOk(w.packages, id, w.sessions[id]);
    }
  }

  /** With nobody else at work, every row that has an account to remove is either cleaned or counted as
    failed. */
  lemma {:induction false} CleanupTriesEveryRow(settings: Settings, w: World, rows: seq<Cleaning>)
    requires AccessInv(w) && forall i, j | 0 <= i < j < |rows| :: rows[i].id != rows[j].id
    requires forall r | r in rows :: r.meanwhile == [] && Removable(w, r.id)
    ensures
      var t := CleanAll(settings, w, rows);
      t.cleaned + t.failed == |rows|
    decreases |rows|
  {
    hide AccessInv, Cleanup, Cleans, Removable, Run;
    if rows != [] {
      var r := rows[0];
      assert r in rows;
      RunNothing(settings, w);
      CleanupKeepsInv(w, r.id, r.up, r.now);
      forall other | other in rows[1..] ensures other in rows && Removable(Cleanup(w, r.id, r.up, r.now), other.id) {
        var j :| 1 <= j < |rows| && rows[j] == other;
        assert other.id != r.id;
        CleanupLeavesRemovable(w, r.id, r.up, r.now, other.id);
      }
      CleanupTriesEveryRow(settings, Cleanup(w, r.id, r.up, r.now), rows[1..]);
    }
  }

  // ------------------------------------------------------------------ expiry of access

  /** The rows `expire_access` switches off: due, and on a router that answers. */
  predicate SwitchedOff(w: World, rows: seq<Key>, now: int, unreachable: set<Key>, key: Key) {
    key in rows && AccessDue(w, key, now) && RouterUp(w, key.router, key !in unreachable)
  }

  lemma SetsWhenUp(w: World, key: Key, enabled: bool, up: bool)
    requires Agrees(w.customers, w.device) && key in w.customers
    ensures SetCustomer(w, key, enabled, up).customers
            == if RouterUp(w, key.router, up) then w.customers[key := w.customers[key].(active := enabled)]
               else w.customers
  {
    assert SameAccess(w.customers[key], Lookup(w.device, key));
    hide Agrees, RouterUp;
  }

  /** The job switches off exactly the due accounts of routers that answer, and changes nothing
    else of any row. */
  lemma {:induction false} ExpirySwitchesOffExactly(w: World, rows: seq<Key>, now: int, unreachable: set<Key>)
    requires AccessInv(w)
    ensures
      var v := ExpireAccess(w, rows, now, unreachable);
      && v.customers.Keys == w.customers.Keys
      && forall key | key in w.customers ::
           v.customers[key]
           == if SwitchedOff(w, rows, now, unreachable, key) then w.customers[key].(active := false)
              else w.customers[key]
    decreases |rows|
  {
    hide AccessInv, SetCustomer, AccessDue, RouterUp;
    if rows != [] {
      var front, last := rows[..|rows| - 1], rows[|rows| - 1];
      var u := ExpireAccess(w, front, now, unreachable);
      ExpirySwitchesOffExactly(w, front, now, unreachable);
      ExpireAccessKeepsInv(w, front, now, unreachable);
      ExpireAccessOnly(w, front, now, unreachable);
      ExpireLast(w, rows, now, unreachable);
      SameRouterUp(w, u, last.router, last !in unreachable);
      LastIsDue(w, u, front, last, now, unreachable);
      if AccessDue(u, last, now) {
        InvAgrees(u);
        SetsWhenUp(u, last, false, last !in unreachable);
      }
      assert rows == front + [last];
      forall key | key in w.customers
        ensures SwitchedOff(w, rows, now, unreachable, key)
                <==> SwitchedOff(w, front, now, unreachable, key)
                     || (key == last && AccessDue(w, key, now) && RouterUp(w, key.router, key !in unreachable))
      {
      }
    }
  }

  /** The row at hand is due after the earlier ones if it was due before and not among them. */
  lemma LastIsDue(w: World, u: World, front: seq<Key>, last: Key, now: int, unreachable: set<Key>)
    requires u.customers.Keys == w.customers.Keys
    requires last in w.customers ==>
               u.customers[last]
               == if SwitchedOff(w, front, now, unreachable, last) then w.customers[last].(active := false)
                  else w.customers[last]
    ensures AccessDue(u, last, now) <==> AccessDue(w, last, now) && !SwitchedOff(w, front, now, unreachable, last)
    ensures AccessDue(u, last, now) ==> last in u.customers && last in w.customers
  {
    hide RouterUp;
    assert last in u.customers <==> last in w.customers;
  }

  lemma SameRouterUp(w: World, u: World, router: nat, up: bool)
    requires w.routers == u.routers
    ensures RouterUp(w, router, up) == RouterUp(u, router, up)
  {
  }

  lemma InvAgrees(w: World)
    requires AccessInv(w)
    ensures Agrees(w.customers, w.device)
  {
  }

  lemma {:induction false} ExpireLast(w: World, rows: seq<Key>, now: int, unreachable: set<Key>)
    requires rows != []
    ensures
      var u, last := ExpireAccess(w, rows[..|rows| - 1], now, unreachable), rows[|rows| - 1];
      ExpireAccess(w, rows, now, unreachable)
      == if AccessDue(u, last, now) then SetCustomer(u, last, false, last !in unreachable) else u
  {
  }
}
