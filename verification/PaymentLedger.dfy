/** The ledger and the payment sessions: a session is provisioned exactly when one ledger row
  carries it, and the ledger adds up. For M-Pesa sessions this holds in every run; for Kopo Kopo
  sessions it needs each completion to come after the last write of the request that created the
  session. `kopo` says whether Kopo Kopo sessions are included. */
module PaymentLedger {
  import opened Text
  import opened AccessTables
  import opened PaymentModel
  import opened PaymentAccess
  import opened PaymentMoves

  predicate Covered(s: Session, kopo: bool) { s.provider.Mpesa? || kopo }

  /** A completion in time. */
  predicate Timely(w: World, step: Step) {
    step.StepComplete? && step.id < |w.sessions| ==> w.sessions[step.id].task.Done?
  }

  predicate TimelyRun(settings: Settings, w: World, steps: seq<Step>)
    decreases |steps|
  {
    steps == [] || (Timely(w, steps[0]) && TimelyRun(settings, Next(settings, w, steps[0]), steps[1..]))
  }

  // ------------------------------------------------------------------ the invariant

  predicate RowOk(sessions: seq<Session>, row: Payment) {
    && row.invoice < |sessions|
    && var s := sessions[row.invoice];
       row.amount == s.amount && row.package == s.package && row.customer == SessionKey(row.invoice, s)
  }

  /** One row an invoice, each with the amount, the package and the account of its session. */
  predicate LedgerOk(sessions: seq<Session>, ledger: seq<Payment>) {
    && (forall j | 0 <= j < |ledger| :: RowOk(sessions, ledger[j]))
    && (forall j, k | 0 <= j < k < |ledger| :: ledger[j].invoice != ledger[k].invoice)
  }

  predicate SessionMatched(ledger: seq<Payment>, i: nat, s: Session) {
    (s.status.Provisioned? <==> HasInvoice(ledger, i)) && (s.status.Provisioned? ==> s.task.Done?)
  }

  predicate Matched(sessions: seq<Session>, ledger: seq<Payment>, kopo: bool) {
    forall i | 0 <= i < |sessions| && Covered(sessions[i], kopo) :: SessionMatched(ledger, i, sessions[i])
  }

  predicate LedgerInv(w: World, kopo: bool) {
    AccessInv(w) && LedgerOk(w.sessions, w.ledger) && Matched(w.sessions, w.ledger, kopo)
  }

  // ------------------------------------------------------------------ what a step does to the ledger

  lemma CompleteAddsRow(w: World, id: nat, receipt: Option<string>, password: string, up: bool, now: int)
    requires AccessInv(w) && id < |w.sessions| && !w.sessions[id].status.Provisioned?
    ensures
      var s, v := w.sessions[id], Complete(w, id, receipt, password, up, now);
      if v.sessions[id].status.Provisioned? && !HasInvoice(w.ledger, id)
      then v.ledger == w.ledger + [Payment(id, receipt, s.amount, SessionKey(id, s), s.package)]
      else v.ledger == w.ledger
  {
    hide Agrees, OwnAccess, ProvisionHotspot, ProvisionPppoe, HasInvoice;
    var s := w.sessions[id];
    assert SessionOk(w.packages, id, s);
    var row, p := s.(status := Provisioning, receipt := receipt, updatedAt := now), w.packages[s.package];
    if Provision(w, id, row, p, password, up, now).Some? {
      if p.service.Hotspot? {
        ProvisionHotspotAgrees(w, id, row, p, password, up, now);
      } else {
        ProvisionPppoeAgrees(w, id, row, p, up, now);
      }
    }
  }

  lemma OnlyCompletionWrites(settings: Settings, w: World, step: Step)
    requires !step.StepComplete?
    ensures Next(settings, w, step).ledger == w.ledger
  {
    hide CreatePayment, Prepare, FinishInitiation, Cleanup, CreateCustomer, SetCustomer, DropCustomer, ExpireAccess,
         Poll, RecordQuery, CallbackFails, MarkReview, KopoAnswer, ExpireSessions, DeleteRouter, PutPackage, PutRouter;
    if IsQuiet(step) {
      QuietSteps(settings, w, step);
    } else if IsAccessStep(step) {
      AccessSteps(settings, w, step);
    } else {
      match step
      case StepCreatePayment(request, now, stamp) => CreateMoves(settings, w, request, now, stamp);
      case StepPrepare(id, password, up, now) => PrepareMoves(w, id, password, up, now);
      case StepFinishInitiation(id, answer, now) => FinishMoves(w, id, answer, now);
      case StepCleanup(id, up, now) => CleanupMoves(w, id, up, now);
    }
  }

  /** The row a step adds, if any. */
  predicate Writes(w: World, step: Step, v: World) {
    || v.ledger == w.ledger
    || (&& step.StepComplete? && step.id < |w.sessions| && CanComplete(w, step.id) && !HasInvoice(w.ledger, step.id)
        && var s := w.sessions[step.id];
           v.ledger == w.ledger + [Payment(step.id, step.receipt, s.amount, SessionKey(step.id, s), s.package)])
  }

  predicate Bought(w: World, step: Step, v: World) {
    step.StepComplete? && step.id < |w.sessions| && !w.sessions[step.id].status.Provisioned?
    && step.id < |v.sessions| && v.sessions[step.id].status.Provisioned?
  }

  lemma StepWrites(settings: Settings, w: World, step: Step)
    requires AccessInv(w)
    ensures
      var v := Next(settings, w, step);
      && Writes(w, step, v)
      && (v.ledger != w.ledger ==> Bought(w, step, v))
      && (Bought(w, step, v) ==> HasInvoice(v.ledger, step.id))
  {
    hide AccessInv, Complete, HasInvoice, SessionKey;
    if step.StepComplete? {
      if CanComplete(w, step.id) {
        CompleteMoves(w, step.id, step.receipt, step.password, step.up, step.now);
        if !w.sessions[step.id].status.Provisioned? {
          CompleteAddsRow(w, step.id, step.receipt, step.password, step.up, step.now);
        }
        var s := w.sessions[step.id];
        LastInvoice(w.ledger, Payment(step.id, step.receipt, s.amount, SessionKey(step.id, s), s.package));
      }
    } else {
      OnlyCompletionWrites(settings, w, step);
      hide Next;
    }
  }

  lemma LastInvoice(ledger: seq<Payment>, row: Payment)
    ensures forall i: nat :: HasInvoice(ledger + [row], i) <==> HasInvoice(ledger, i) || i == row.invoice
  {
    var all := ledger + [row];
    assert all[|ledger|] == row;
    forall i: nat ensures HasInvoice(all, i) <==> HasInvoice(ledger, i) || i == row.invoice {
      if HasInvoice(ledger, i) {
        var j :| 0 <= j < |ledger| && ledger[j].invoice == i;
        assert all[j].invoice == i;
      }
    }
  }

  // ------------------------------------------------------------------ the invariant holds in every run

  lemma DealKeepsRow(before: seq<Session>, after: seq<Session>, row: Payment)
    requires RowOk(before, row) && row.invoice < |after| && SameDeal(before[row.invoice], after[row.invoice])
    ensures RowOk(after, row)
  {
  }

  lemma StepKeepsRows(settings: Settings, w: World, step: Step)
    requires AccessInv(w) && LedgerOk(w.sessions, w.ledger)
    ensures LedgerOk(Next(settings, w, step).sessions, Next(settings, w, step).ledger)
  {
    hide Next, AccessInv, RowOk, SessionKey, Bought, CanComplete;
    var v := Next(settings, w, step);
    StepWrites(settings, w, step);
    forall j | 0 <= j < |v.ledger| ensures RowOk(v.sessions, v.ledger[j]) {
      if j < |w.ledger| {
        assert v.ledger[j] == w.ledger[j];
        RowInvoice(w, j);
        StepMoves(settings, w, step, w.ledger[j].invoice);
        DealKeepsRow(w.sessions, v.sessions, w.ledger[j]);
      } else {
        NewRowOk(w, step.id, step.receipt);
        StepMoves(settings, w, step, step.id);
        DealKeepsRow(w.sessions, v.sessions, v.ledger[j]);
      }
    }
  }

  lemma RowInvoice(w: World, j: nat)
    requires LedgerOk(w.sessions, w.ledger) && j < |w.ledger|
    ensures RowOk(w.sessions, w.ledger[j]) && w.ledger[j].invoice < |w.sessions|
  {
  }

  lemma NewRowOk(w: World, id: nat, receipt: Option<string>)
    requires id < |w.sessions|
    ensures RowOk(w.sessions,
                  Payment(id, receipt, w.sessions[id].amount, SessionKey(id, w.sessions[id]), w.sessions[id].package))
  {
  }

  lemma DoneWhenCompleted(w: World, step: Step, kopo: bool)
    requires AccessInv(w) && step.StepComplete? && CanComplete(w, step.id) && Covered(w.sessions[step.id], kopo)
    requires kopo ==> Timely(w, step)
    ensures w.sessions[step.id].task.Done?
  {
    assert SessionOk(w.packages, step.id, w.sessions[step.id]);
  }

  lemma StepMatchesOld(settings: Settings, w: World, step: Step, kopo: bool, i: nat)
    requires LedgerInv(w, kopo) && (kopo ==> Timely(w, step)) && i < |w.sessions| && Covered(w.sessions[i], kopo)
    ensures i < |Next(settings, w, step).sessions|
    ensures SessionMatched(Next(settings, w, step).ledger, i, Next(settings, w, step).sessions[i])
  {
    hide Next, AccessInv, LedgerOk, HasInvoice, SessionKey, Timely, SameDeal, CanComplete;
    var v := Next(settings, w, step);
    assert SessionMatched(w.ledger, i, w.sessions[i]);
    StepMoves(settings, w, step, i);
    StepWrites(settings, w, step);
    if v.ledger != w.ledger {
      LastInvoice(w.ledger, v.ledger[|w.ledger|]);
    }
    if v.sessions[i].status.Provisioned? && !w.sessions[i].status.Provisioned? {
      CompletedCan(settings, w, step);
      DoneWhenCompleted(w, step, kopo);
    }
  }

  lemma CompletedCan(settings: Settings, w: World, step: Step)
    requires Bought(w, step, Next(settings, w, step))
    ensures CanComplete(w, step.id)
  {
    hide Complete;
  }

  lemma StepMatchesNew(settings: Settings, w: World, step: Step, i: nat)
    requires AccessInv(w) && LedgerOk(w.sessions, w.ledger) && |w.sessions| <= i < |Next(settings, w, step).sessions|
    ensures SessionMatched(Next(settings, w, step).ledger, i, Next(settings, w, step).sessions[i])
  {
    hide Next, AccessInv, RowOk;
    StepCreates(settings, w, step);
    StepWrites(settings, w, step);
    if HasInvoice(w.ledger, i) {
      var j :| 0 <= j < |w.ledger| && w.ledger[j].invoice == i;
      RowInvoice(w, j);
    }
  }

  lemma StepKeepsLedger(settings: Settings, w: World, step: Step, kopo: bool)
    requires LedgerInv(w, kopo) && (kopo ==> Timely(w, step))
    ensures LedgerInv(Next(settings, w, step), kopo)
  {
    hide Next, AccessInv, LedgerOk, HasInvoice, Timely, SessionMatched;
    var v := Next(settings, w, step);
    StepKeepsInv(settings, w, step);
    StepKeepsRows(settings, w, step);
    forall i | 0 <= i < |v.sessions| && Covered(v.sessions[i], kopo)
      ensures SessionMatched(v.ledger, i, v.sessions[i])
    {
      if i < |w.sessions| {
        StepMoves(settings, w, step, i);
        StepMatchesOld(settings, w, step, kopo, i);
      } else {
        StepMatchesNew(settings, w, step, i);
      }
    }
  }

  lemma {:induction false} RunKeepsLedger(settings: Settings, w: World, steps: seq<Step>, kopo: bool)
    requires LedgerInv(w, kopo) && (kopo ==> TimelyRun(settings, w, steps))
    ensures LedgerInv(Run(settings, w, steps), kopo)
    decreases |steps|
  {
    hide Next, LedgerInv, Timely;
    if steps != [] {
      StepKeepsLedger(settings, w, steps[0], kopo);
      RunKeepsLedger(settings, Next(settings, w, steps[0]), steps[1..], kopo);
    }
  }

  // ------------------------------------------------------------------ the books balance

  function Worth(s: Session, kopo: bool): int {
    if Covered(s, kopo) && s.status.Provisioned? then s.amount else 0
  }

  /** The amounts of the provisioned sessions. */
  function Sold(sessions: seq<Session>, kopo: bool): int {
    if sessions == [] then 0 else Sold(sessions[..|sessions| - 1], kopo) + Worth(sessions[|sessions| - 1], kopo)
  }

  function RowWorth(row: Payment, sessions: seq<Session>, kopo: bool): int {
    if row.invoice < |sessions| && Covered(sessions[row.invoice], kopo) then row.amount else 0
  }

  /** The amounts of the ledger's rows. */
  function Paid(ledger: seq<Payment>, sessions: seq<Session>, kopo: bool): int {
    if ledger == [] then 0
    else Paid(ledger[..|ledger| - 1], sessions, kopo) + RowWorth(ledger[|ledger| - 1], sessions, kopo)
  }

  lemma {:induction false} SoldChanges(a: seq<Session>, b: seq<Session>, kopo: bool, id: nat, extra: int)
    requires |a| <= |b| && (id < |a| || extra == 0)
    requires forall i | 0 <= i < |a| :: Worth(b[i], kopo) == Worth(a[i], kopo) + if i == id then extra else 0
    requires forall i | |a| <= i < |b| :: Worth(b[i], kopo) == 0
    ensures Sold(b, kopo) == Sold(a, kopo) + extra
    decreases |b|
  {
    hide Worth;
    if b != [] {
      var n := |b| - 1;
      if |a| < |b| {
        SoldChanges(a, b[..n], kopo, id, extra);
      } else {
        SoldChanges(a[..n], b[..n], kopo, id, if id == n then 0 else extra);
      }
    }
  }

  lemma {:induction false} PaidSame(ledger: seq<Payment>, a: seq<Session>, b: seq<Session>, kopo: bool)
    requires forall j | 0 <= j < |ledger| :: RowWorth(ledger[j], a, kopo) == RowWorth(ledger[j], b, kopo)
    ensures Paid(ledger, a, kopo) == Paid(ledger, b, kopo)
  {
    hide RowWorth;
    if ledger != [] {
      PaidSame(ledger[..|ledger| - 1], a, b, kopo);
    }
  }

  lemma PaidAppend(ledger: seq<Payment>, row: Payment, sessions: seq<Session>, kopo: bool)
    ensures Paid(ledger + [row], sessions, kopo) == Paid(ledger, sessions, kopo) + RowWorth(row, sessions, kopo)
  {
    assert (ledger + [row])[..|ledger|] == ledger;
  }

  /** What the completed session adds, on both sides of the books. */
  function Gain(w: World, step: Step, v: World, kopo: bool): int {
    if Bought(w, step, v) && Covered(w.sessions[step.id], kopo) then w.sessions[step.id].amount else 0
  }

  lemma SoldStep(settings: Settings, w: World, step: Step, kopo: bool)
    requires LedgerInv(w, kopo)
    ensures Sold(Next(settings, w, step).sessions, kopo)
            == Sold(w.sessions, kopo) + Gain(w, step, Next(settings, w, step), kopo)
  {
    hide Next, AccessInv, LedgerOk, HasInvoice, Sold;
    var v := Next(settings, w, step);
    var id := if Bought(w, step, v) then step.id else |w.sessions|;
    StepCreates(settings, w, step);
    forall i | 0 <= i < |w.sessions|
      ensures Worth(v.sessions[i], kopo) == Worth(w.sessions[i], kopo) + if i == id then Gain(w, step, v, kopo) else 0
    {
      StepMoves(settings, w, step, i);
      assert Covered(w.sessions[i], kopo) ==> SessionMatched(w.ledger, i, w.sessions[i]);
    }
    SoldChanges(w.sessions, v.sessions, kopo, id, Gain(w, step, v, kopo));
  }

  lemma PaidStep(settings: Settings, w: World, step: Step, kopo: bool)
    requires LedgerInv(w, kopo)
    ensures
      var v := Next(settings, w, step);
      Paid(v.ledger, v.sessions, kopo) == Paid(w.ledger, w.sessions, kopo) + Gain(w, step, v, kopo)
  {
    hide Next, AccessInv, RowOk, HasInvoice, Paid, CanComplete, SessionKey;
    var v := Next(settings, w, step);
    StepWrites(settings, w, step);
    forall j | 0 <= j < |w.ledger|
      ensures RowWorth(w.ledger[j], w.sessions, kopo) == RowWorth(w.ledger[j], v.sessions, kopo)
    {
      RowInvoice(w, j);
      StepMoves(settings, w, step, w.ledger[j].invoice);
    }
    PaidSame(w.ledger, w.sessions, v.sessions, kopo);
    if Bought(w, step, v) && Covered(w.sessions[step.id], kopo) {
      MatchedOne(w, kopo, step.id);
    }
    if v.ledger != w.ledger {
      StepMoves(settings, w, step, step.id);
      PaidAppend(w.ledger, v.ledger[|w.ledger|], v.sessions, kopo);
    }
  }

  // ------------------------------------------------------------------ main results

  predicate Balanced(w: World, kopo: bool) {
    LedgerInv(w, kopo) && Paid(w.ledger, w.sessions, kopo) == Sold(w.sessions, kopo)
  }

  lemma EmptyIsBalanced(kopo: bool)
    ensures Balanced(EMPTY, kopo)
  {
  }

  /** In every run a session is provisioned exactly when one ledger row carries it, with its
    amount, package and account, and the ledger's total is the sum of the amounts of the
    provisioned sessions. */
  lemma {:induction false} LedgerBalances(settings: Settings, w: World, steps: seq<Step>, kopo: bool)
    requires Balanced(w, kopo) && (kopo ==> TimelyRun(settings, w, steps))
    ensures Balanced(Run(settings, w, steps), kopo)
    decreases |steps|
  {
    hide Next, LedgerInv, Timely, Paid, Sold;
    if steps != [] {
      StepKeepsLedger(settings, w, steps[0], kopo);
      PaidStep(settings, w, steps[0], kopo);
      SoldStep(settings, w, steps[0], kopo);
      LedgerBalances(settings, Next(settings, w, steps[0]), steps[1..], kopo);
    }
  }

  /** Provisioned is never left. */
  lemma {:induction false} ProvisionedIsFinal(settings: Settings, w: World, steps: seq<Step>, kopo: bool, i: nat)
    requires LedgerInv(w, kopo) && (kopo ==> TimelyRun(settings, w, steps))
    requires i < |w.sessions| && Covered(w.sessions[i], kopo) && w.sessions[i].status.Provisioned?
    ensures i < |Run(settings, w, steps).sessions| && Run(settings, w, steps).sessions[i].status.Provisioned?
    decreases |steps|
  {
    hide Next, LedgerInv, Timely;
    if steps != [] {
      assert SessionMatched(w.ledger, i, w.sessions[i]) by {
        MatchedOne(w, kopo, i);
      }
      StepMoves(settings, w, steps[0], i);
      StepKeepsLedger(settings, w, steps[0], kopo);
      ProvisionedIsFinal(settings, Next(settings, w, steps[0]), steps[1..], kopo, i);
    }
  }

  lemma MatchedOne(w: World, kopo: bool, i: nat)
    requires LedgerInv(w, kopo) && i < |w.sessions| && Covered(w.sessions[i], kopo)
    ensures SessionMatched(w.ledger, i, w.sessions[i])
  {
  }

  /** Without the assumption on Kopo Kopo: a step takes a provisioned session back exactly when it
    is the last write of the request that created it, and then the session is Kopo Kopo's. */
  lemma ProvisionedIsLeftExactly(settings: Settings, w: World, step: Step, i: nat)
    requires AccessInv(w) && i < |w.sessions| && w.sessions[i].status.Provisioned?
    ensures i < |Next(settings, w, step).sessions|
    ensures !Next(settings, w, step).sessions[i].status.Provisioned?
            <==> step.StepFinishInitiation? && step.id == i && step.answer.Some? && w.sessions[i].task == Asking(true)
    ensures !Next(settings, w, step).sessions[i].status.Provisioned? ==> w.sessions[i].provider.Kopokopo?
  {
    hide Next;
    StepMoves(settings, w, step, i);
    assert SessionOk(w.packages, i, w.sessions[i]);
  }

  predicate IsProvisioned(w: World, i: nat) { i < |w.sessions| && w.sessions[i].status.Provisioned? }

  lemma StepKeepsProvisioned(settings: Settings, w: World, step: Step, i: nat)
    requires IsProvisioned(w, i)
    ensures IsProvisioned(Next(settings, w, step), i) <==> !Overtaken(w, step, i)
  {
    hide Next, Overtaken;
    StepMoves(settings, w, step, i);
  }

  /** Over a run: a provisioned session is provisioned after every step exactly when no step of the
    run is the late last write of its request. */
  lemma ProvisionedStaysExactly(settings: Settings, w: World, steps: seq<Step>, i: nat)
    requires IsProvisioned(w, i)
    ensures (forall k | 0 <= k <= |steps| :: IsProvisioned(Until(settings, w, steps, k), i))
            <==> forall k | 0 <= k < |steps| :: !Overtaken(Until(settings, w, steps, k), steps[k], i)
  {
    hide Until, IsProvisioned, Overtaken;
    UntilBegins(settings, w, steps);
    forall k | 0 <= k < |steps| && IsProvisioned(Until(settings, w, steps, k), i)
      ensures IsProvisioned(Until(settings, w, steps, k + 1), i)
              <==> !Overtaken(Until(settings, w, steps, k), steps[k], i)
    {
      UntilNext(settings, w, steps, k);
      StepKeepsProvisioned(settings, Until(settings, w, steps, k), steps[k], i);
    }
    if forall k | 0 <= k < |steps| :: !Overtaken(Until(settings, w, steps, k), steps[k], i) {
      var n := 0;
      while n < |steps|
        invariant 0 <= n <= |steps|
        invariant forall k | 0 <= k <= n :: IsProvisioned(Until(settings, w, steps, k), i)
      {
        assert IsProvisioned(Until(settings, w, steps, n), i);
        assert !Overtaken(Until(settings, w, steps, n), steps[n], i);
        n := n + 1;
      }
    }
    if forall k | 0 <= k <= |steps| :: IsProvisioned(Until(settings, w, steps, k), i) {
      forall k | 0 <= k < |steps| ensures !Overtaken(Until(settings, w, steps, k), steps[k], i) {
        assert IsProvisioned(Until(settings, w, steps, k + 1), i);
      }
    }
  }

  /** How many ledger rows carry this session. */
  function Rows(ledger: seq<Payment>, i: nat): nat {
    if ledger == [] then 0 else Rows(ledger[..|ledger| - 1], i) + if ledger[|ledger| - 1].invoice == i then 1 else 0
  }

  lemma {:induction false} RowsAreOneOrNone(ledger: seq<Payment>, i: nat)
    requires forall j, k | 0 <= j < k < |ledger| :: ledger[j].invoice != ledger[k].invoice
    ensures Rows(ledger, i) == if HasInvoice(ledger, i) then 1 else 0
  {
    if ledger != [] {
      var front, last := ledger[..|ledger| - 1], ledger[|ledger| - 1];
      RowsAreOneOrNone(front, i);
      LastInvoice(front, last);
      assert front + [last] == ledger;
      assert forall j | 0 <= j < |front| :: front[j] == ledger[j];
    }
  }

  /** From the start, in every run, an M-Pesa session has one ledger row if it is provisioned and
    none otherwise. */
  lemma MpesaSessionsAreLedgered(settings: Settings, steps: seq<Step>, i: nat)
    ensures
      var v := Run(settings, EMPTY, steps);
      i < |v.sessions| && v.sessions[i].provider.Mpesa?
      ==> Rows(v.ledger, i) == if v.sessions[i].status.Provisioned? then 1 else 0
  {
    hide Run, HasInvoice, Rows, AccessInv, RowOk;
    var v := Run(settings, EMPTY, steps);
    EmptyIsBalanced(false);
    LedgerBalances(settings, EMPTY, steps, false);
    RowsAreOneOrNone(v.ledger, i);
    if i < |v.sessions| && v.sessions[i].provider.Mpesa? {
      MatchedOne(v, false, i);
    }
  }

  // ------------------------------------------------------------------ why Kopo Kopo needs the assumption

  const SETTINGS: Settings := Settings({Kopokopo}, 5, 10, 15, 60)

  const LINE: Key := Key(Pppoe, 1, Typed("line"))

  const HOME: Package := Package(1, Pppoe, 5000, 1, "home", true)

  const REQUEST: Request := Request(Some(1), Some(1), "254700000000", None, "line", "key")

  /** A router, a package, an account, and a payment whose access task has ended. */
  const BEGINNING: seq<Step> := [
    StepPutRouter(1, RouterRow(true, Kopokopo, false)),
    StepPutPackage(1, HOME),
    StepCreateCustomer(Pppoe, 1, "line", "secret", 1, true, 0),
    StepCreatePayment(REQUEST, 0, 0),
    StepPrepare(0, "", true, 0)]

  const WAITING: Session :=
    Session(Kopokopo, Created, 5000, Pppoe, "line", "254700000000", None, "key",
            Fingerprint(1, "254700000000", "line"), 1, 1, 0, 900, 0, None, None, None, None, None, Asking(true))

  const ROW: Payment := Payment(0, Some("r1"), 5000, LINE, 1)

  /** One PPPoE account paid up to `expiry`, and its payments. */
  function OneLine(sessions: seq<Session>, expiry: int, ledger: seq<Payment>): World {
    World(map[1 := RouterRow(true, Kopokopo, false)], map[1 := HOME], sessions,
          map[LINE := Customer("secret", true, Some(expiry), 1)], [Entry(LINE, "secret", "home", true, None)], ledger)
  }

  lemma PackageIsMade()
    ensures
      Run(SETTINGS, EMPTY, BEGINNING[..2])
      == EMPTY.(routers := map[1 := RouterRow(true, Kopokopo, false)], packages := map[1 := HOME])
  {
    hide Run;
    var steps := BEGINNING;
    assert steps[..1] == [steps[0]] && steps[..2] == steps[..1] + [steps[1]];
    RunOne(SETTINGS, EMPTY, steps[0]);
    OneMore(SETTINGS, EMPTY, steps[..1], steps[1]);
  }

  lemma AccountIsMade()
    ensures Run(SETTINGS, EMPTY, BEGINNING[..3]) == OneLine([], 60, [])
  {
    hide Run;
    var steps := BEGINNING;
    PackageIsMade();
    assert steps[..3] == steps[..2] + [steps[2]];
    OneMore(SETTINGS, EMPTY, steps[..2], steps[2]);
  }

  lemma PaymentIsMade()
    ensures Run(SETTINGS, EMPTY, BEGINNING) == OneLine([WAITING], 60, [])
  {
    hide Run;
    var steps := BEGINNING;
    AccountIsMade();
    assert steps[..4] == steps[..3] + [steps[3]] && steps == steps[..4] + [steps[4]];
    OneMore(SETTINGS, EMPTY, steps[..3], steps[3]);
    OneMore(SETTINGS, EMPTY, steps[..4], steps[4]);
  }

  lemma OneLineCompletes(settings: Settings, s: Session, expiry: int, ledger: seq<Payment>, now: int)
    requires s == WAITING.(status := s.status, updatedAt := s.updatedAt, requestId := s.requestId, receipt := s.receipt,
                           accessName := s.accessName, task := s.task)
    requires !s.status.Provisioned? && now < expiry && (ledger == [] || ledger == [ROW])
    ensures Next(settings, OneLine([s], expiry, ledger), StepComplete(0, Some("r1"), "", true, now))
            == OneLine([s.(status := Provisioned, receipt := Some("r1"), updatedAt := now,
                           accessName := Some(LINE.name))], expiry + 60, [ROW])
  {
    hide HasInvoice;
    var w := OneLine([s], expiry, ledger);
    assert HasInvoice(ledger, 0) <==> ledger == [ROW] by {
      LastInvoice([], ROW);
      assert [] + [ROW] == [ROW];
      NoInvoice(0);
    }
    assert w.device[0 := Entry(LINE, "secret", "home", true, None)] == w.device;
    var row := s.(status := Provisioning, receipt := Some("r1"), updatedAt := now);
    var renewed := Customer("secret", true, Some(expiry + 60), 1);
    assert Provision(w, 0, row, w.packages[1], "", true, now)
           == Some(Grant(row.(accessName := Some(LINE.name)), w.device, LINE, renewed));
  }

  lemma NoInvoice(i: nat)
    ensures !HasInvoice([], i)
  {
  }

  /** A run in which the callback overtakes the initiation: the paid session is pending again, and
    a second delivery of the callback renews the account a second time for the one ledger row. */
  lemma OvertakenKopoPaymentRenewsTwice()
    ensures
      var once := BEGINNING + [StepComplete(0, Some("r1"), "", true, 10)];
      var overwritten := once + [StepFinishInitiation(0, Some("req"), 11)];
      var twice := overwritten + [StepComplete(0, Some("r1"), "", true, 12)];
      var paid := Run(SETTINGS, EMPTY, once);
      var pending := Run(SETTINGS, EMPTY, overwritten);
      var again := Run(SETTINGS, EMPTY, twice);
      && |paid.sessions| == |pending.sessions| == |again.sessions| == 1
      && paid.sessions[0].status.Provisioned? && pending.sessions[0].status.Pending?
      && again.sessions[0].status.Provisioned?
      && paid.ledger == pending.ledger == again.ledger == [ROW]
      && paid.customers == pending.customers == map[LINE := Customer("secret", true, Some(120), 1)]
      && again.customers == map[LINE := Customer("secret", true, Some(180), 1)]
  {
    hide Complete, Run;
    var once := BEGINNING + [StepComplete(0, Some("r1"), "", true, 10)];
    var overwritten := once + [StepFinishInitiation(0, Some("req"), 11)];
    var paid := WAITING.(status := Provisioned, receipt := Some("r1"), updatedAt := 10, accessName := Some(LINE.name));
    var pending := paid.(requestId := Some("req"), status := Pending, updatedAt := 11, task := Done);
    PaymentIsMade();
    OneMore(SETTINGS, EMPTY, BEGINNING, StepComplete(0, Some("r1"), "", true, 10));
    OneLineCompletes(SETTINGS, WAITING, 60, [], 10);
    OneMore(SETTINGS, EMPTY, once, StepFinishInitiation(0, Some("req"), 11));
    assert [paid][0 := pending] == [pending];
    OneMore(SETTINGS, EMPTY, overwritten, StepComplete(0, Some("r1"), "", true, 12));
    OneLineCompletes(SETTINGS, pending, 120, [ROW], 12);
  }
}
