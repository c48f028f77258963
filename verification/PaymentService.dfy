/** The functions of services/payment_service.py, services/access_service.py and
  services/maintenance_service.py, step by step on the tables they write, against PaymentModel.

  The database's tables are fields; the routers' user tables are inside `table`. Clocks, fresh
  passwords, provider answers and whether a router can be reached are inputs. */
module PaymentServices {
  import opened Text
  import opened AccessTables
  import opened UserTables
  import opened PaymentModel
  import opened PaymentAccess
  import opened PaymentJobs
  import PaymentMoves

  class PaymentService {
    const settings: Settings
    const table: UserTable
    var routers: map<nat, RouterRow>
    var packages: map<nat, Package>
    var sessions: seq<Session>
    var customers: map<Key, Customer>
    var ledger: seq<Payment>

    ghost function State(): World
      reads this, table
    {
      World(routers, packages, sessions, customers, table.lines, ledger)
    }

    /** What every method keeps: the invariant of all runs, with it the agreement of the two stores. */
    ghost predicate Valid()
      reads this, table
    {
      AccessInv(State())
    }

    constructor (settings: Settings, table: UserTable)
      requires UniqueNames(table.lines)
      ensures this.settings == settings && this.table == table
      ensures State() == EMPTY.(device := table.lines)
      ensures Valid()
    {
      this.settings, this.table := settings, table;
      routers, packages, sessions, customers, ledger := map[], map[], [], map[], [];
    }

    /** `router_api`: a deleted router is refused before it is called. */
    predicate Reachable(router: nat, up: bool)
      reads this
    {
      up && router in routers && !routers[router].deleted
    }

    // ---------------------------------------------------------------- creating a session

    method CreatePublicPayment(r: Request, now: int, stamp: int) returns (result: CreateResult)
      requires Valid()
      modifies this
      ensures (State(), result) == CreatePayment(settings, old(State()), r, now, stamp)
      ensures Valid()
    {
      hide AccessInv;
      CreatePaymentKeepsInv(settings, State(), r, now, stamp);
      hide FindByKey, RecentCount;
      if r.router.None? || r.router.value !in routers {
        return PortalNotFound;
      }
      var router := routers[r.router.value];
      if !router.portalEnabled {
        return PortalNotFound;
      }
      if router.provider !in settings.providers {
        return ProviderDisabled;
      }
      if r.package.None? || r.package.value !in packages {
        return PackageNotFound;
      }
      var package := packages[r.package.value];
      if package.router != r.router.value || !package.active {
        return PackageNotFound;
      }
      if package.service.Pppoe? && r.reference == "" {
        return ReferenceMissing;
      }
      var existing := FindByKey(sessions, r.router.value, r.key);
      if existing.Some? {
        if sessions[existing.value].fingerprint != Fingerprint(r.package.value, r.phone, r.reference) {
          return KeyReused;
        }
        return Replayed(existing.value);
      }
      var since := now - 60 * settings.windowMinutes;
      if RecentCount(sessions, r.phone, r.client, since) >= settings.limit {
        return TooMany;
      }
      var row := Session(
        router.provider, Created, package.price, package.service, r.reference, r.phone, r.client, r.key,
        Fingerprint(r.package.value, r.phone, r.reference), r.router.value, r.package.value,
        stamp, now + 60 * settings.sessionMinutes, stamp, None, None, None, None, None, Asking(false));
      result := Started(|sessions|);
      sessions := sessions + [row];
    }

    /** `_payment_credentials`. */
    method PaymentCredentials(id: nat, s: Session, password: string, now: int) returns (row: Session)
      ensures row == WithCredentials(id, s, password, now)
    {
      row := s;
      if !(row.accessName.Some? && row.accessPassword.Some?) {
        row := row.(accessName := Some(Derived(id)));
        row := row.(accessPassword := Some(password));
        row := row.(credentialsUntil := Some(now + 60 * 30));
      }
    }

    /** The access task of a new session, with its rollback. */
    method PreparePaymentAccess(id: nat, password: string, up: bool, now: int)
      requires Valid()
      modifies this, table
      ensures State() == Prepare(old(State()), id, password, up, now)
      ensures Valid()
    {
      hide AccessInv;
      PrepareKeepsInv(State(), id, password, up, now);
      hide Upsert;
      if id >= |sessions| || sessions[id].task != Asking(false) {
        return;
      }
      sessions := sessions[id := sessions[id].(task := Asking(true))];
      var row := sessions[id];
      if !row.service.Hotspot? || row.package !in packages {
        return;
      }
      var package := packages[row.package];
      if !package.service.Hotspot? {
        return;
      }
      row := PaymentCredentials(id, row, password, now);
      var key := Key(Hotspot, row.router, row.accessName.value);
      var done := table.UpsertUser(Reachable(row.router, up), HotspotEntry(key, row.accessPassword.value, package),
                                   true);
      if !done {
        return;
      }
      var user: Customer;
      if key !in customers {
        user := Customer(row.accessPassword.value, true, None, row.package);
      } else {
        user := customers[key].(password := row.accessPassword.value);
        user := user.(package := row.package);
        user := user.(active := true);
        user := user.(expires := None);
      }
      row := row.(updatedAt := now);
      customers := customers[key := user];
      sessions := sessions[id := row];
    }

    /** The last transaction of `create_public_payment`. */
    method FinishPaymentInitiation(id: nat, answer: Option<string>, now: int)
      requires Valid()
      modifies this
      ensures State() == FinishInitiation(old(State()), id, answer, now)
      ensures Valid()
    {
      hide AccessInv;
      FinishInitiationKeepsInv(State(), id, answer, now);
      if id >= |sessions| || sessions[id].task != Asking(true) {
        return;
      }
      var row := sessions[id].(task := Done);
      match answer
      case None =>
        if row.status.Created? {
          row := row.(status := Failed, updatedAt := now);
        }
        sessions := sessions[id := row];
      case Some(requestId) =>
        row := row.(requestId := Some(requestId));
        row := row.(status := Pending, updatedAt := now);
        sessions := sessions[id := row];
    }

    // ---------------------------------------------------------------- granting access

    /** The hotspot half of `provision_paid_session`; None when it raises. */
    method ProvisionHotspotSession(id: nat, s: Session, package: Package, password: string, up: bool, now: int)
      returns (granted: Option<(Session, Key, Customer)>)
      modifies table
      ensures
        var g := ProvisionHotspot(old(State()), id, s, package, password, up, now);
        && granted == (if g.None? then None else Some((g.value.session, g.value.key, g.value.customer)))
        && table.lines == (if g.None? then old(table.lines) else g.value.device)
    {
      hide Upsert;
      var row := PaymentCredentials(id, s, password, now);
      var key := Key(Hotspot, row.router, row.accessName.value);
      var user: Customer;
      if key !in customers {
        var done := table.UpsertUser(Reachable(row.router, up), HotspotEntry(key, row.accessPassword.value, package),
                                     true);
        if !done {
          return None;
        }
        user := Customer(row.accessPassword.value, true, None, row.package);
      } else {
        user := customers[key];
        if !user.active {
          var done := table.UpsertUser(Reachable(row.router, up), HotspotEntry(key, row.accessPassword.value, package),
                                       true);
          if !done {
            return None;
          }
        }
      }
      user := user.(password := row.accessPassword.value);
      user := user.(package := row.package);
      user := user.(active := true);
      if user.expires.None? {
        user := user.(expires := Some(now + 60 * package.validity));
      }
      granted := Some((row, key, user));
    }

    /** The PPPoE half. */
    method ProvisionPppoeSession(s: Session, package: Package, up: bool, now: int)
      returns (granted: Option<(Session, Key, Customer)>)
      modifies table
      ensures
        var g := ProvisionPppoe(old(State()), s, package, up, now);
        && granted == (if g.None? then None else Some((g.value.session, g.value.key, g.value.customer)))
        && table.lines == (if g.None? then old(table.lines) else g.value.device)
    {
      hide Upsert;
      var key := Key(Pppoe, s.router, Typed(s.reference));
      if s.reference == "" || key !in customers {
        return None;
      }
      var user := customers[key];
      var done := table.UpsertUser(Reachable(s.router, up), Entry(key, user.password, package.profile, true, None),
                                   true);
      if !done {
        return None;
      }
      user := user.(package := s.package);
      user := user.(active := true);
      var base := if user.expires.Some? && user.expires.value > now then user.expires.value else now;
      user := user.(expires := Some(base + 60 * package.validity));
      granted := Some((s.(accessName := Some(key.name), accessPassword := None, credentialsUntil := None), key, user));
    }

    /** `complete_payment`: a failure rolls back and writes `provisioning_failed`. A session that may
      complete leaves the tables in order. */
    method CompletePayment(id: nat, receipt: Option<string>, call: Call) returns (raised: bool)
      requires Valid()
      modifies this, table
      ensures State() == Complete(old(State()), id, receipt, call.password, call.up, call.now)
      ensures raised == Raises(State(), id)
      ensures old(CanComplete(State(), id)) ==> Valid()
    {
      hide AccessInv, Complete;
      ghost var before := State();
      raised := CompleteTransaction(id, receipt, call);
      if CanComplete(before, id) {
        CompleteKeepsInv(before, id, receipt, call.password, call.up, call.now);
      }
    }

    method CompleteTransaction(id: nat, receipt: Option<string>, call: Call) returns (raised: bool)
      modifies this, table
      ensures State() == Complete(old(State()), id, receipt, call.password, call.up, call.now)
      ensures raised == Raises(State(), id)
    {
      hide ProvisionHotspot, ProvisionPppoe, HasInvoice;
      if id >= |sessions| || sessions[id].status.Provisioned? {
        return false;
      }
      var row := sessions[id];
      row := row.(status := Provisioning, updatedAt := call.now);
      row := row.(receipt := receipt);
      if row.package !in packages {
        row := row.(status := ManualReview);
        sessions := sessions[id := row];
        return false;
      }
      var package := packages[row.package];
      var granted: Option<(Session, Key, Customer)>;
      if package.service.Hotspot? {
        granted := ProvisionHotspotSession(id, row, package, call.password, call.up, call.now);
      } else {
        granted := ProvisionPppoeSession(row, package, call.up, call.now);
      }
      match granted
      case None =>
        var failed := sessions[id];
        failed := failed.(status := ProvisioningFailed, updatedAt := call.now);
        sessions := sessions[id := failed];
        raised := true;
      case Some((paid, key, user)) =>
        customers := customers[key := user];
        if !HasInvoice(ledger, id) {
          ledger := ledger + [Payment(id, receipt, row.amount, key, row.package)];
        }
        row := paid.(status := Provisioned);
        sessions := sessions[id := row];
        raised := false;
    }

    // ---------------------------------------------------------------- providers' answers

    method MarkManualReview(id: nat, now: int)
      requires Valid()
      modifies this
      ensures State() == MarkReview(old(State()), id, now)
      ensures Valid()
    {
      hide AccessInv;
      MarkReviewKeepsInv(settings, State(), id, now);
      if id < |sessions| && sessions[id].provider.Mpesa? && sessions[id].requestId.Some?
         && !sessions[id].status.Provisioned?
      {
        sessions := sessions[id := sessions[id].(status := ManualReview, updatedAt := now)];
      }
    }

    /** `process_mpesa_callback`: a transaction that reads the session, then perhaps a status query,
      then one that settles it. */
    method ProcessMpesaCallback(c: MpesaCallback, verification: Verification, meanwhile: seq<Step>, call: Call)
      requires Valid()
      modifies this, table
      ensures State() == Run(settings, old(State()),
                             MpesaCallbackSteps(old(State()), c, verification, meanwhile, call))
      ensures Valid()
    {
      StoresAgree(settings, State(), MpesaCallbackSteps(State(), c, verification, meanwhile, call));
      hide Complete, MarkReview, FindByRequest, Run, AccessInv;
      RunNothing(settings, State());
      if c.requestId.None? || c.requestId.value == "" {
        return;
      }
      var found := FindByRequest(sessions, c.requestId.value);
      match found
      case None =>
      case Some(id) =>
        var row := sessions[id];
        if !row.provider.Mpesa? || CallbackIgnored(row) {
          return;
        }
        ghost var before := State();
        if !c.success {
          RunOne(settings, before, StepCallbackFails(id, call.now));
          row := row.(status := Failed, updatedAt := call.now);
          sessions := sessions[id := row];
          return;
        }
        Meanwhile(meanwhile);
        if c.amount != Some(row.amount) || c.phone != row.phone {
          ThenReviews(settings, before, meanwhile, id, call.now);
          MarkManualReview(id, call.now);
          return;
        }
        if verification.QueryFails? {
          return;
        }
        if verification == Verified(false) {
          ThenReviews(settings, before, meanwhile, id, call.now);
          MarkManualReview(id, call.now);
          return;
        }
        ThenCompletes(settings, before, meanwhile, id, c.receipt, call);
        var _ := CompletePayment(id, c.receipt, call);
    }

    /** `process_kopokopo_callback`: a success is completed in a transaction of its own. */
    method ProcessKopokopoCallback(c: KopoCallback, meanwhile: seq<Step>, call: Call)
      requires Valid()
      modifies this, table
      ensures State() == Run(settings, old(State()), KopoCallbackSteps(old(State()), c, meanwhile, call))
      ensures Valid()
    {
      StoresAgree(settings, State(), KopoCallbackSteps(State(), c, meanwhile, call));
      hide Complete, Run, AccessInv;
      RunNothing(settings, State());
      if c.id.None? || c.id.value >= |sessions| {
        return;
      }
      var id := c.id.value;
      var row := sessions[id];
      if !row.provider.Kopokopo? || CallbackIgnored(row) {
        return;
      }
      ghost var before := State();
      var matches := c.amount == Some(row.amount) && c.phone == row.phone;
      RunOne(settings, before, StepKopoAnswer(id, c.success, matches, call.now));
      if !c.success {
        row := row.(status := Failed, updatedAt := call.now);
        sessions := sessions[id := row];
        return;
      }
      if !matches {
        row := row.(status := ManualReview, updatedAt := call.now);
        sessions := sessions[id := row];
        return;
      }
      Meanwhile(meanwhile);
      ThenCompletes(settings, before, meanwhile, id, c.receipt, call);
      var _ := CompletePayment(id, c.receipt, call);
    }

    /** What follows a status query; `raised` when `complete_payment` raised. */
    method TakeAnswer(id: nat, answer: Answer, call: Call) returns (raised: bool)
      requires Valid() && (answer.Paid? ==> CanComplete(State(), id))
      modifies this, table
      ensures State() == Run(settings, old(State()), AnswerSteps(id, answer, call))
      ensures raised == (answer.Paid? && Raises(State(), id))
      ensures Valid()
    {
      StoresAgree(settings, State(), AnswerSteps(id, answer, call));
      hide Complete, Run, AccessInv;
      RunNothing(settings, State());
      ghost var before := State();
      raised := false;
      match answer
      case NoAnswer =>
      case Paid(receipt) =>
        RunOne(settings, before, CompleteStep(id, receipt, call));
        raised := CompletePayment(id, receipt, call);
      case NotPaid =>
        RunOne(settings, before, StepRecordQuery(id, call.now));
        if id < |sessions| && sessions[id].status.Pending? {
          sessions := sessions[id := sessions[id].(updatedAt := call.now)];
        }
    }

    /** What others do while a method waits for a provider or between two transactions. */
    method Meanwhile(steps: seq<Step>)
      requires Valid()
      modifies this, table
      ensures State() == Run(settings, old(State()), steps)
      ensures Valid()
    {
      StoresAgree(settings, State(), steps);
      hide Run, AccessInv;
      var after := Run(settings, World(routers, packages, sessions, customers, table.lines, ledger), steps);
      routers, packages, sessions, customers, ledger :=
        after.routers, after.packages, after.sessions, after.customers, after.ledger;
      table.lines := after.device;
    }

    // ---------------------------------------------------------------- the browser's poll and the retry

    /** The first transaction of `get_public_payment`, which claims the query window. */
    method PollSession(id: nat, tokenOk: bool, now: int) returns (found: bool, request: Option<string>)
      requires Valid()
      modifies this
      ensures (State(), request) == Poll(settings, old(State()), id, tokenOk, now)
      ensures |sessions| == |old(sessions)|
      ensures found <==>
                id < |old(sessions)| && tokenOk && old(sessions)[id].createdAt + 60 * settings.tokenMinutes >= now
      ensures Valid()
    {
      hide AccessInv;
      PollKeepsInv(settings, State(), id, tokenOk, now);
      found, request := false, None;
      if id >= |sessions| || !tokenOk || sessions[id].createdAt + 60 * settings.tokenMinutes < now {
        return;
      }
      found := true;
      var row := sessions[id];
      if Unpaid(row) && row.expiresAt < now {
        row := row.(status := Failed, updatedAt := now);
        sessions := sessions[id := row];
      } else if row.status.Pending? && row.provider.Mpesa? && row.requestId.Some? {
        if row.updatedAt <= now - QUERY_SECONDS {
          row := row.(updatedAt := now);
          sessions := sessions[id := row];
          request := row.requestId;
        }
      }
    }

    /** `get_public_payment`: an error of the completion is swallowed. */
    method GetPublicPayment(id: nat, tokenOk: bool, now: int, meanwhile: seq<Step>, answer: Answer, call: Call)
      returns (status: Option<Status>)
      requires Valid()
      modifies this, table
      ensures State() == Run(settings, old(State()),
                             PollSteps(settings, old(State()), id, tokenOk, now, meanwhile, answer, call))
      ensures status.Some? <==>
        id < |old(sessions)| && tokenOk && old(sessions)[id].createdAt + 60 * settings.tokenMinutes >= now
      ensures status.Some? ==> id < |sessions| && status == Some(sessions[id].status)
      ensures Valid()
    {
      hide Run, AnswerSteps, Poll, Raises, CanComplete, AccessInv;
      ghost var before := State();
      var found, request := PollSession(id, tokenOk, now);
      ghost var polled := State();
      PollIsOneStep(settings, before, id, tokenOk, now);
      if request.Some? {
        PollAsksOwnRequest(settings, before, id, tokenOk, now);
        Meanwhile(meanwhile);
        CanCompleteStays(settings, polled, meanwhile, id);
        ghost var waited := State();
        RunAppend(settings, before, [StepPoll(id, tokenOk, now)], meanwhile + AnswerSteps(id, answer, call));
        RunAppend(settings, polled, meanwhile, AnswerSteps(id, answer, call));
        var _ := TakeAnswer(id, answer, call);
        SessionStays(settings, waited, AnswerSteps(id, answer, call), id);
      }
      status := if found then Some(sessions[id].status) else None;
    }

    /** `retry_provisioning`: the two statuses it accepts are those of sessions that may complete. */
    method RetryProvisioning(id: nat, meanwhile: seq<Step>, call: Call) returns (result: RetryResult)
      requires Valid()
      modifies this, table
      ensures result.NotFound? <==> id >= |old(sessions)|
      ensures result.NotWaiting? <==> id < |old(sessions)| && !Waiting(old(sessions)[id])
      ensures State() == Run(settings, old(State()), RetrySteps(old(State()), id, meanwhile, call))
      ensures result.RetryRaised? <==> !result.NotFound? && !result.NotWaiting? && Raises(State(), id)
      ensures Valid()
    {
      hide Complete, Run, AccessInv;
      RunNothing(settings, State());
      if id >= |sessions| {
        return NotFound;
      }
      if !Waiting(sessions[id]) {
        return NotWaiting;
      }
      WaitingCanComplete(State(), id);
      var receipt := sessions[id].receipt;
      ghost var before := State();
      Meanwhile(meanwhile);
      ThenCompletes(settings, before, meanwhile, id, receipt, call);
      var raised := CompletePayment(id, receipt, call);
      result := if raised then RetryRaised else Retried;
    }

    // ---------------------------------------------------------------- jobs

    /** `reconcile_pending_payments` over the rows its query returned, with the provider's answers and
      what others do while it waits for them. When `complete_payment` raises, so does the job, and
      its counts are lost. */
    method ReconcilePendingPayments(rows: seq<Candidate>) returns (provisioned: nat, pending: nat, raised: bool)
      requires Valid() && Reconcilable(State(), rows)
      modifies this, table
      ensures var t := Reconcile(settings, old(State()), rows);
              && State() == t.world && raised == t.raised
              && (!raised ==> provisioned == t.provisioned && pending == t.pending)
      ensures Valid()
    {
      hide Run, AnswerSteps, Raises, AccessInv, Reconcilable, CanComplete;
      provisioned, pending, raised := 0, 0, false;
      ghost var whole := Reconcile(settings, State(), rows);
      var i := 0;
      while i < |rows|
        invariant i <= |rows| && !raised
        invariant Valid() && Reconcilable(State(), rows)
        invariant
          var t := Reconcile(settings, State(), rows[i..]);
          && whole == t.(provisioned := whole.provisioned, pending := whole.pending)
          && (!t.raised ==> whole.provisioned == provisioned + t.provisioned && whole.pending == pending + t.pending)
      {
        var row := rows[i];
        assert rows[i..][0] == row && rows[i..][1..] == rows[i + 1..];
        ghost var before := State();
        Meanwhile(row.meanwhile);
        RunKeepsReconcilable(settings, before, row.meanwhile, rows);
        RunAppend(settings, before, row.meanwhile, AnswerSteps(row.id, row.answer, row.call));
        RunKeepsReconcilable(settings, before, CandidateSteps(row), rows);
        CandidateCanComplete(State(), rows, i);
        raised := TakeAnswer(row.id, row.answer, row.call);
        if raised {
          return;
        }
        if row.answer.Paid? {
          provisioned := provisioned + 1;
        } else {
          pending := pending + 1;
        }
        i := i + 1;
      }
    }

    /** `expire_payment_sessions`: the count is that of the sessions changed. */
    method ExpirePaymentSessions(now: int) returns (count: nat)
      requires Valid()
      modifies `sessions
      ensures State() == ExpireSessions(old(State()), now)
      ensures count == DueCount(old(sessions), now)
      ensures Valid()
    {
      hide AccessInv, Expired, DueCount;
      ghost var before := State();
      ExpireSessionsKeepsInv(settings, before, now);
      count := FailDueSessions(now);
      assert sessions == ExpireSessions(before, now).sessions;
    }

    method FailDueSessions(now: int) returns (count: nat)
      modifies `sessions
      ensures |sessions| == |old(sessions)|
      ensures forall j | 0 <= j < |sessions| :: sessions[j] == Expired(old(sessions)[j], now)
      ensures count == DueCount(old(sessions), now)
    {
      ghost var before := sessions;
      count := 0;
      var i := 0;
      while i < |sessions|
        invariant i <= |sessions| == |before|
        invariant forall j | 0 <= j < i :: sessions[j] == Expired(before[j], now)
        invariant forall j | i <= j < |before| :: sessions[j] == before[j]
        invariant count == DueCount(before[..i], now)
      {
        assert before[..i + 1][..i] == before[..i];
        if Unpaid(sessions[i]) && sessions[i].expiresAt <= now {
          sessions := sessions[i := sessions[i].(status := Failed, updatedAt := now)];
          count := count + 1;
        }
        i := i + 1;
      }
      assert before[..i] == before;
    }

    /** `cleanup_prepared_hotspot_session` on a failed session; None when the router call raises. */
    method CleanupPreparedHotspotSession(id: nat, up: bool, now: int) returns (cleaned: Option<bool>)
      requires Valid()
      modifies this, table
      ensures State() == Cleanup(old(State()), id, up, now)
      ensures cleaned == Some(true) <==> Cleans(old(State()), id, up)
      ensures cleaned == None <==> Removable(old(State()), id) && !Cleans(old(State()), id, up)
      ensures Valid()
    {
      hide AccessInv;
      CleanupKeepsInv(State(), id, up, now);
      hide Without;
      if id >= |sessions| || !sessions[id].status.Failed? {
        return Some(false);
      }
      var row := sessions[id];
      if !row.service.Hotspot? || row.accessName.None? {
        return Some(false);
      }
      var key := Key(Hotspot, row.router, row.accessName.value);
      if key !in customers || customers[key].expires.Some? {
        return Some(false);
      }
      var done := table.DeleteUser(Reachable(row.router, up), key);
      if !done {
        return None;
      }
      customers := customers - {key};
      row := row.(accessPassword := None);
      row := row.(credentialsUntil := None, updatedAt := now);
      sessions := sessions[id := row];
      cleaned := Some(true);
    }

    /** `cleanup_failed_prepared_hotspot_sessions` over the rows its query returned. */
    method CleanupFailedPreparedSessions(rows: seq<Cleaning>) returns (cleaned: nat, failed: nat)
      requires Valid()
      modifies this, table
      ensures CleanTally(State(), cleaned, failed) == CleanAll(settings, old(State()), rows)
      ensures Valid()
    {
      hide Run, Cleanup, Removable, Cleans, AccessInv;
      cleaned, failed := 0, 0;
      ghost var whole := CleanAll(settings, State(), rows);
      var i := 0;
      while i < |rows|
        invariant i <= |rows| && Valid()
        invariant
          var t := CleanAll(settings, State(), rows[i..]);
          whole == CleanTally(t.world, cleaned + t.cleaned, failed + t.failed)
      {
        assert rows[i..][0] == rows[i] && rows[i..][1..] == rows[i + 1..];
        Meanwhile(rows[i].meanwhile);
        CleansRemovable(State(), rows[i].id, rows[i].up);
        var result := CleanupPreparedHotspotSession(rows[i].id, rows[i].up, rows[i].now);
        if result.None? {
          failed := failed + 1;
        } else if result.value {
          cleaned := cleaned + 1;
        }
        i := i + 1;
      }
    }

    /** `expire_access` over the rows its queries returned, hotspot rows first: every row is due and
      listed once. `unreachable` holds those whose router call fails. */
    method ExpireDueAccess(rows: seq<Key>, now: int, unreachable: set<Key>) returns (disabled: nat, failed: nat)
      requires DueOnce(State(), rows, now)
      requires Valid()
      modifies this, table
      ensures State() == ExpireAccess(old(State()), rows, now, unreachable)
      ensures disabled == OffCount(customers, rows) && disabled + failed == |rows|
      ensures Valid()
    {
      hide AccessInv;
      hide SetEnabled, SetCustomer, ExpireAccess, AccessDue, OffCount, DueOnce;
      ghost var before := State();
      disabled, failed := 0, 0;
      var i := 0;
      ExpireNone(before, now, unreachable);
      OffCountNone(customers);
      while i < |rows|
        invariant i <= |rows|
        invariant Valid() && State() == ExpireAccess(before, rows[..i], now, unreachable)
        invariant disabled == OffCount(customers, rows[..i]) && disabled + failed == i
      {
        ExpiresOneMore(before, rows, i, now, unreachable);
        var done := SetCustomerEnabled(rows[i], false, rows[i] !in unreachable);
        if done {
          disabled := disabled + 1;
        } else {
          failed := failed + 1;
        }
        i := i + 1;
      }
      assert rows[..i] == rows;
    }

    // ---------------------------------------------------------------- customers

    /** `create_hotspot_customer` and `create_pppoe_customer`. */
    method CreateServiceCustomer(service: Service, router: nat, name: string, password: string, package: nat, up: bool,
                                 now: int)
      returns (created: bool)
      requires Valid()
      modifies this, table
      ensures State() == CreateCustomer(old(State()), service, router, name, password, package, up, now)
      ensures created <==> State() != old(State())
      ensures Valid()
    {
      hide AccessInv;
      CreateCustomerKeepsInv(State(), service, router, name, password, package, up, now);
      hide Upsert;
      created := false;
      if router !in routers || routers[router].deleted || package !in packages {
        return;
      }
      var p := packages[package];
      var key := Key(service, router, Typed(name));
      if p.router != router || p.service != service || !p.active || key in customers {
        return;
      }
      var duration := if service.Hotspot? then Some(p.validity) else None;
      var done := table.UpsertUser(up, Entry(key, password, p.profile, true, duration), false);
      if done {
        customers := customers[key := Customer(password, true, Some(now + 60 * p.validity), package)];
        created := true;
      }
    }

    /** `set_customer_enabled`. */
    method SetCustomerEnabled(key: Key, enabled: bool, up: bool) returns (done: bool)
      requires Valid()
      modifies this, table
      ensures State() == SetCustomer(old(State()), key, enabled, up)
      ensures done <==>
                && key in old(customers)
                && SetEnabled(old(table.lines), old(Reachable(key.router, up)), key, enabled).Some?
      ensures Valid()
    {
      hide AccessInv;
      SetCustomerKeepsInv(State(), key, enabled, up);
      hide SetEnabled;
      if key !in customers {
        return false;
      }
      done := table.SetUserEnabled(Reachable(key.router, up), key, enabled);
      if done {
        customers := customers[key := customers[key].(active := enabled)];
      }
    }

    /** `delete_customer`. */
    method DeleteCustomer(key: Key, up: bool) returns (done: bool)
      requires Valid()
      modifies this, table
      ensures State() == DropCustomer(old(State()), key, up)
      ensures done <==> key in old(customers) && old(Reachable(key.router, up))
      ensures Valid()
    {
      hide AccessInv;
      DropCustomerKeepsInv(State(), key, up);
      hide Without;
      if key !in customers {
        return false;
      }
      done := table.DeleteUser(Reachable(key.router, up), key);
      if done {
        customers := customers - {key};
      }
    }

    // ---------------------------------------------------------------- deleting a router

    method FailUnpaidSessions(router: nat, now: int)
      modifies `sessions
      ensures |sessions| == |old(sessions)|
      ensures forall j | 0 <= j < |sessions| :: sessions[j] == FailedUnpaid(old(sessions)[j], router, now)
    {
      ghost var before := sessions;
      var i := 0;
      while i < |sessions|
        invariant i <= |sessions| == |before|
        invariant forall j | 0 <= j < i :: sessions[j] == FailedUnpaid(before[j], router, now)
        invariant forall j | i <= j < |before| :: sessions[j] == before[j]
      {
        if sessions[i].router == router && Unpaid(sessions[i]) {
          sessions := sessions[i := sessions[i].(status := Failed, updatedAt := now)];
        }
        i := i + 1;
      }
    }

    method ReviewPaidSessions(router: nat, now: int)
      modifies `sessions
      ensures |sessions| == |old(sessions)|
      ensures forall j | 0 <= j < |sessions| :: sessions[j] == ReviewedPaid(old(sessions)[j], router, now)
    {
      ghost var before := sessions;
      var i := 0;
      while i < |sessions|
        invariant i <= |sessions| == |before|
        invariant forall j | 0 <= j < i :: sessions[j] == ReviewedPaid(before[j], router, now)
        invariant forall j | i <= j < |before| :: sessions[j] == before[j]
      {
        if sessions[i].router == router && (sessions[i].status.Provisioning? || sessions[i].status.ProvisioningFailed?)
        {
          sessions := sessions[i := sessions[i].(status := ManualReview, updatedAt := now)];
        }
        i := i + 1;
      }
    }

    /** The bulk updates of `delete_router`: its packages are retired, its unpaid sessions fail, and
      those paid but not provisioned go to review. Customers and router users stay. */
    method RetireRouter(router: nat, now: int)
      requires Valid()
      modifies this
      ensures State() == DeleteRouter(old(State()), router, now)
      ensures Valid()
    {
      hide AccessInv;
      DeleteRouterKeepsInv(settings, State(), router, now);
      hide Orphaned, FailedUnpaid, ReviewedPaid;
      if router !in routers || routers[router].deleted {
        return;
      }
      packages := map p | p in packages ::
        if packages[p].router == router && packages[p].active then packages[p].(active := false) else packages[p];
      ghost var before := sessions;
      FailUnpaidSessions(router, now);
      ReviewPaidSessions(router, now);
      forall j | 0 <= j < |before| ensures sessions[j] == Orphaned(before[j], router, now) {
        TwoUpdates(before[j], router, now);
      }
      routers := routers[router := routers[router].(portalEnabled := false)];
      routers := routers[router := routers[router].(deleted := true)];
      assert sessions == DeleteRouter(old(State()), router, now).sessions;
    }
  }

  /** What the first of the two updates does to a session. */
  function FailedUnpaid(s: Session, router: nat, now: int): Session {
    if s.router == router && Unpaid(s) then s.(status := Failed, updatedAt := now) else s
  }

  /** What the second does to a session. */
  function ReviewedPaid(s: Session, router: nat, now: int): Session {
    if s.router == router && (s.status.Provisioning? || s.status.ProvisioningFailed?)
    then s.(status := ManualReview, updatedAt := now) else s
  }

  lemma TwoUpdates(s: Session, router: nat, now: int)
    ensures ReviewedPaid(FailedUnpaid(s, router, now), router, now) == Orphaned(s, router, now)
  {
  }

  predicate Waiting(s: Session) { s.status.Provisioning? || s.status.ProvisioningFailed? }

  /** `retry_provisioning`; `meanwhile` are the steps of others after its check. */
  function RetrySteps(w: World, id: nat, meanwhile: seq<Step>, call: Call): seq<Step> {
    if id < |w.sessions| && Waiting(w.sessions[id])
    then meanwhile + [CompleteStep(id, w.sessions[id].receipt, call)] else []
  }

  datatype RetryResult = NotFound | NotWaiting | RetryRaised | Retried

  function DueCount(sessions: seq<Session>, now: int): nat {
    if sessions == [] then 0 else
      var last := sessions[|sessions| - 1];
      DueCount(sessions[..|sessions| - 1], now) + if Unpaid(last) && last.expiresAt <= now then 1 else 0
  }

  /** The answer of the job's queries: due rows, each once. */
  predicate DueOnce(w: World, rows: seq<Key>, now: int) {
    && (forall i, j | 0 <= i < j < |rows| :: rows[i] != rows[j])
    && (forall i | 0 <= i < |rows| :: AccessDue(w, rows[i], now))
  }

  function OffCount(customers: map<Key, Customer>, rows: seq<Key>): nat {
    if rows == [] then 0 else
      var last := rows[|rows| - 1];
      OffCount(customers, rows[..|rows| - 1]) + if last in customers && !customers[last].active then 1 else 0
  }

  lemma OffCountNone(customers: map<Key, Customer>)
    ensures OffCount(customers, []) == 0
  {
  }

  lemma OffCountOneMore(customers: map<Key, Customer>, front: seq<Key>, last: Key)
    ensures OffCount(customers, front + [last])
            == OffCount(customers, front) + if last in customers && !customers[last].active then 1 else 0
  {
    assert (front + [last])[..|front|] == front;
  }

  lemma ExpireNone(w: World, now: int, unreachable: set<Key>)
    ensures ExpireAccess(w, [], now, unreachable) == w
  {
  }

  lemma {:induction false} ExpireLeavesOthers(w: World, rows: seq<Key>, now: int, unreachable: set<Key>, key: Key)
    requires key !in rows && key in w.customers
    ensures
      var u := ExpireAccess(w, rows, now, unreachable);
      key in u.customers && u.customers[key] == w.customers[key]
    decreases |rows|
  {
    hide SetEnabled, AccessDue;
    if rows != [] {
      ExpireLeavesOthers(w, rows[..|rows| - 1], now, unreachable, key);
      assert rows[|rows| - 1] in rows;
    }
  }

  /** A due row that was not listed yet is still due, and on. */
  lemma {:induction false} ExpireOneMore(w: World, front: seq<Key>, last: Key, now: int, unreachable: set<Key>)
    requires last !in front && AccessDue(w, last, now)
    ensures
      var u := ExpireAccess(w, front, now, unreachable);
      && last in u.customers && u.customers[last].active
      && ExpireAccess(w, front + [last], now, unreachable) == SetCustomer(u, last, false, last !in unreachable)
  {
    hide SetCustomer;
    ExpireLeavesOthers(w, front, now, unreachable, last);
    assert (front + [last])[..|front|] == front;
  }

  lemma {:induction false} OffCountSame(before: map<Key, Customer>, after: map<Key, Customer>, rows: seq<Key>,
                                        other: Key)
    requires other !in rows
    requires forall key | key in before && key != other :: key in after && after[key] == before[key]
    requires forall key | key in after && key != other :: key in before
    ensures OffCount(before, rows) == OffCount(after, rows)
  {
    if rows != [] {
      OffCountSame(before, after, rows[..|rows| - 1], other);
      assert rows[|rows| - 1] in rows;
    }
  }

  /** One turn of the loop: the row is still on, and is counted if its router call succeeds. */
  lemma ExpiresOneMore(w: World, rows: seq<Key>, i: nat, now: int, unreachable: set<Key>)
    requires DueOnce(w, rows, now) && i < |rows|
    ensures
      var u, v := ExpireAccess(w, rows[..i], now, unreachable), ExpireAccess(w, rows[..i + 1], now, unreachable);
      && rows[i] in u.customers
      && v == SetCustomer(u, rows[i], false, rows[i] !in unreachable)
      && OffCount(v.customers, rows[..i + 1])
         == OffCount(u.customers, rows[..i])
            + if SetEnabled(u.device, RouterUp(u, rows[i].router, rows[i] !in unreachable), rows[i], false).Some?
              then 1 else 0
  {
    hide SetEnabled, ExpireAccess, AccessDue, OffCount, RouterUp;
    var u, v := ExpireAccess(w, rows[..i], now, unreachable), ExpireAccess(w, rows[..i + 1], now, unreachable);
    assert rows[..i + 1] == rows[..i] + [rows[i]];
    ExpireOneMore(w, rows[..i], rows[i], now, unreachable);
    OffCountSame(u.customers, v.customers, rows[..i], rows[i]);
    OffCountOneMore(v.customers, rows[..i], rows[i]);
  }

  // ------------------------------------------------------------------ single steps keep the invariant

  lemma PollKeepsInv(settings: Settings, w: World, id: nat, tokenOk: bool, now: int)
    requires AccessInv(w)
    ensures AccessInv(Poll(settings, w, id, tokenOk, now).0)
  {
    hide AccessInv, Poll;
    StepKeepsInv(settings, w, StepPoll(id, tokenOk, now));
  }

  lemma MarkReviewKeepsInv(settings: Settings, w: World, id: nat, now: int)
    requires AccessInv(w)
    ensures AccessInv(MarkReview(w, id, now))
  {
    hide AccessInv, MarkReview;
    StepKeepsInv(settings, w, StepMarkReview(id, now));
  }

  lemma ExpireSessionsKeepsInv(settings: Settings, w: World, now: int)
    requires AccessInv(w)
    ensures AccessInv(ExpireSessions(w, now))
  {
    hide AccessInv, ExpireSessions;
    StepKeepsInv(settings, w, StepExpireSessions(now));
  }

  lemma DeleteRouterKeepsInv(settings: Settings, w: World, router: nat, now: int)
    requires AccessInv(w)
    ensures AccessInv(DeleteRouter(w, router, now))
  {
    hide AccessInv, DeleteRouter;
    StepKeepsInv(settings, w, StepDeleteRouter(router, now));
  }

  lemma CleansRemovable(w: World, i: nat, up: bool)
    ensures Cleans(w, i, up) ==> Removable(w, i)
  {
  }

  /** The two statuses a retry accepts are those of sessions that may complete. */
  lemma WaitingCanComplete(w: World, i: nat)
    requires AccessInv(w) && i < |w.sessions| && Waiting(w.sessions[i])
    ensures CanComplete(w, i)
  {
    assert SessionOk(w.packages, i, w.sessions[i]);
  }

  lemma CandidateCanComplete(w: World, rows: seq<Candidate>, i: nat)
    requires Reconcilable(w, rows) && i < |rows|
    ensures CanComplete(w, rows[i].id)
  {
    assert rows[i] in rows;
  }

  lemma SessionStays(settings: Settings, w: World, steps: seq<Step>, i: nat)
    requires i < |w.sessions|
    ensures i < |Run(settings, w, steps).sessions|
  {
    PaymentMoves.RunKeepsDeal(settings, w, steps, i);
  }

  lemma CanCompleteStays(settings: Settings, w: World, steps: seq<Step>, i: nat)
    requires CanComplete(w, i)
    ensures CanComplete(Run(settings, w, steps), i)
  {
    PaymentMoves.RunKeepsDeal(settings, w, steps, i);
  }

  lemma ThenCompletes(settings: Settings, w: World, meanwhile: seq<Step>, id: nat, receipt: Option<string>, call: Call)
    requires CanComplete(w, id)
    ensures
      var u := Run(settings, w, meanwhile);
      && CanComplete(u, id)
      && Run(settings, w, meanwhile + [CompleteStep(id, receipt, call)])
         == Complete(u, id, receipt, call.password, call.up, call.now)
  {
    hide Complete, Run;
    CanCompleteStays(settings, w, meanwhile, id);
    OneMore(settings, w, meanwhile, CompleteStep(id, receipt, call));
  }

  lemma ThenReviews(settings: Settings, w: World, meanwhile: seq<Step>, id: nat, now: int)
    ensures Run(settings, w, meanwhile + [StepMarkReview(id, now)]) == MarkReview(Run(settings, w, meanwhile), id, now)
  {
    hide MarkReview, Run;
    OneMore(settings, w, meanwhile, StepMarkReview(id, now));
  }

  lemma PollIsOneStep(settings: Settings, w: World, id: nat, tokenOk: bool, now: int)
    ensures Run(settings, w, [StepPoll(id, tokenOk, now)] + []) == Poll(settings, w, id, tokenOk, now).0
    ensures Run(settings, w, [StepPoll(id, tokenOk, now)]) == Poll(settings, w, id, tokenOk, now).0
  {
    hide Poll;
    assert [StepPoll(id, tokenOk, now)] + [] == [StepPoll(id, tokenOk, now)];
    RunOne(settings, w, StepPoll(id, tokenOk, now));
  }

  lemma PollAsksOwnRequest(settings: Settings, w: World, id: nat, tokenOk: bool, now: int)
    requires Poll(settings, w, id, tokenOk, now).1.Some?
    ensures
      var v := Poll(settings, w, id, tokenOk, now).0;
      id < |v.sessions| && v.sessions[id].requestId.Some?
  {
  }
}
