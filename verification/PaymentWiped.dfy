/** A hotspot account that loses its expiry after it was paid. The access task of a new session
  writes the account without an expiry; when the provider's callback comes before that task has
  run, it takes back what the payment granted. Here is exactly when that happens, and what it can
  lead to. */
module PaymentWiped {
  import opened Text
  import opened AccessTables
  import opened PaymentModel
  import opened PaymentAccess
  import opened PaymentMoves
  import opened PaymentLedger
  import opened PaymentRenewals
  import opened PaymentHotspot

  /** The access task of session `i` comes to an answering router only now. */
  predicate Wipes(w: World, step: Step, i: nat) {
    && step.StepPrepare? && step.id == i && i < |w.sessions|
    && w.sessions[i].task == Asking(false) && RouterUp(w, w.sessions[i].router, step.up)
  }

  /** The account of session `i` is there, for its package, with this password and this expiry. */
  predicate Paid(w: World, i: nat, password: string, expiry: int) {
    && i < |w.sessions| && w.sessions[i].service.Hotspot?
    && var key := Account(w, i);
       && key in w.customers && w.customers[key].password == password
       && w.customers[key].expires == Some(expiry) && w.customers[key].package == w.sessions[i].package
  }

  // ------------------------------------------------------------------ one step

  /** A completion leaves the account paid. */
  lemma CompletionPays(w: World, i: nat, receipt: Option<string>, password: string, up: bool, now: int)
    requires AccessInv(w) && i < |w.sessions| && w.sessions[i].service.Hotspot?
    requires !w.sessions[i].status.Provisioned? && CanProvision(w, i, up)
    ensures
      var v := Complete(w, i, receipt, password, up, now);
      && i < |v.sessions| && v.sessions[i].accessPassword.Some?
      && exists expiry :: Paid(v, i, v.sessions[i].accessPassword.value, expiry)
  {
    hide Complete, CanProvision, AccessInv;
    var v := Complete(w, i, receipt, password, up, now);
    CompleteMoves(w, i, receipt, password, up, now);
    CompletionSucceedsExactly(w, i, receipt, password, up, now);
    CompleteGrants(w, i, receipt, password, up, now);
    assert Paid(v, i, v.sessions[i].accessPassword.value, v.customers[Account(v, i)].expires.value);
  }

  lemma OwnersHold(w: World, i: nat, password: string, expiry: int)
    requires AccessInv(w) && Paid(w, i, password, expiry)
    ensures SessionOk(w.packages, i, w.sessions[i])
    ensures w.sessions[i].accessName == Some(Derived(i)) && w.sessions[i].accessPassword == Some(password)
  {
    hide Agrees;
    assert Owns(w.sessions, Account(w, i), w.customers[Account(w, i)]);
  }

  lemma PrepareKeepsPaid(w: World, i: nat, fresher: string, up: bool, now: int, password: string, expiry: int)
    requires AccessInv(w) && Paid(w, i, password, expiry)
    ensures Paid(Prepare(w, i, fresher, up, now), i, password, expiry)
            <==> !Wipes(w, StepPrepare(i, fresher, up, now), i)
  {
    OwnersHold(w, i, password, expiry);
    hide Upsert, RouterUp, AccessInv;
    UpsertSucceedsExactly(w.device, RouterUp(w, w.sessions[i].router, up),
                          HotspotEntry(Account(w, i), password, w.packages[w.sessions[i].package]));
  }

  lemma CompleteKeepsPaid(w: World, i: nat, receipt: Option<string>, fresher: string, up: bool, now: int,
                          password: string, expiry: int)
    requires AccessInv(w) && Paid(w, i, password, expiry)
    ensures Paid(Complete(w, i, receipt, fresher, up, now), i, password, expiry)
  {
    OwnersHold(w, i, password, expiry);
    hide Upsert, RouterUp, AccessInv, HasInvoice;
  }

  lemma CleanupKeepsPaid(w: World, i: nat, up: bool, now: int, password: string, expiry: int)
    requires AccessInv(w) && Paid(w, i, password, expiry)
    ensures Paid(Cleanup(w, i, up, now), i, password, expiry)
  {
    OwnersHold(w, i, password, expiry);
    hide Delete, RouterUp, AccessInv;
  }

  lemma SessionTasks(w: World, i: nat)
    requires AccessInv(w) && i < |w.sessions|
    ensures w.sessions[i].provider.Mpesa? && w.sessions[i].status.Provisioned? ==> w.sessions[i].task.Done?
  {
    SessionHolds(w, i);
  }

  /** Of all steps but an operator's deletion of the account, only the late access task ends it;
    M-Pesa sessions are never hit, since their task is over before they are provisioned. */
  lemma StepKeepsPaidExactly(settings: Settings, w: World, step: Step, i: nat, password: string, expiry: int)
    requires AccessInv(w) && Paid(w, i, password, expiry) && !Drops(step, Account(w, i))
    ensures Paid(Next(settings, w, step), i, password, expiry) <==> !Wipes(w, step, i)
    ensures Wipes(w, step, i) && w.sessions[i].status.Provisioned? ==> w.sessions[i].provider.Kopokopo?
  {
    hide Prepare, Complete, Cleanup, CreatePayment, FinishInitiation, CreateCustomer, SetCustomer, DropCustomer,
         ExpireAccess, Poll, RecordQuery, CallbackFails, MarkReview, KopoAnswer, ExpireSessions, DeleteRouter,
         PutPackage, PutRouter, AccessInv, RouterUp, SessionOk;
    OwnersHold(w, i, password, expiry);
    StepMoves(settings, w, step, i);
    SessionTasks(w, i);
    if Own(step, i, Account(w, i)) {
      match step
      case StepPrepare(id, fresher, up, now) => PrepareKeepsPaid(w, i, fresher, up, now, password, expiry);
      case StepComplete(id, receipt, fresher, up, now) =>
        CompleteKeepsPaid(w, i, receipt, fresher, up, now, password, expiry);
      case StepCleanup(id, up, now) => CleanupKeepsPaid(w, i, up, now, password, expiry);
    } else {
      OnlyOwnStepsTouch(settings, w, step, i, w.sessions[i].router);
    }
  }

  // ------------------------------------------------------------------ every run

  /** Until an operator deletes it, a paid account keeps its password, package and expiry after every
    step of a run exactly when the access task of its session never runs late. */
  lemma PaidAccessLastsExactly(settings: Settings, w: World, steps: seq<Step>, i: nat, password: string, expiry: int)
    requires AccessInv(w) && Paid(w, i, password, expiry)
    requires forall step | step in steps :: !Drops(step, Account(w, i))
    ensures (forall k | 0 <= k <= |steps| :: Paid(Until(settings, w, steps, k), i, password, expiry))
            <==> forall k | 0 <= k < |steps| :: !Wipes(Until(settings, w, steps, k), steps[k], i)
  {
    assert i < |w.sessions|;
    hide Until, Paid, Wipes, AccessInv, Drops;
    UntilBegins(settings, w, steps);
    forall k | 0 <= k < |steps| && Paid(Until(settings, w, steps, k), i, password, expiry)
      ensures Paid(Until(settings, w, steps, k + 1), i, password, expiry)
              <==> !Wipes(Until(settings, w, steps, k), steps[k], i)
    {
      PaidAt(settings, w, steps, k, i, password, expiry);
    }
    if forall k | 0 <= k < |steps| :: !Wipes(Until(settings, w, steps, k), steps[k], i) {
      var n := 0;
      while n < |steps|
        invariant 0 <= n <= |steps|
        invariant forall k | 0 <= k <= n :: Paid(Until(settings, w, steps, k), i, password, expiry)
      {
        assert Paid(Until(settings, w, steps, n), i, password, expiry);
        assert !Wipes(Until(settings, w, steps, n), steps[n], i);
        n := n + 1;
      }
    }
    if forall k | 0 <= k <= |steps| :: Paid(Until(settings, w, steps, k), i, password, expiry) {
      forall k | 0 <= k < |steps| ensures !Wipes(Until(settings, w, steps, k), steps[k], i) {
        assert Paid(Until(settings, w, steps, k + 1), i, password, expiry);
      }
    }
  }

  lemma PaidAt(settings: Settings, w: World, steps: seq<Step>, k: nat, i: nat, password: string, expiry: int)
    requires AccessInv(w) && i < |w.sessions| && k < |steps|
    requires forall step | step in steps :: !Drops(step, Account(w, i))
    requires Paid(Until(settings, w, steps, k), i, password, expiry)
    ensures Paid(Until(settings, w, steps, k + 1), i, password, expiry)
            <==> !Wipes(Until(settings, w, steps, k), steps[k], i)
  {
    hide Run, Paid, Wipes, AccessInv, Drops;
    StoresAgree(settings, w, steps[..k]);
    RunKeepsDeal(settings, w, steps[..k], i);
    UntilNext(settings, w, steps, k);
    assert steps[k] in steps && Account(Until(settings, w, steps, k), i) == Account(w, i);
    StepKeepsPaidExactly(settings, Until(settings, w, steps, k), steps[k], i, password, expiry);
  }

  // ------------------------------------------------------------------ a run that ends without the account

  const SPOT: Package := Package(1, Hotspot, 1000, 60, "day", true)

  const GUEST: Key := Key(Hotspot, 1, Derived(0))

  const BUYING: Request := Request(Some(1), Some(1), "254700000000", None, "", "key")

  const ASKED: Session :=
    Session(Kopokopo, Created, 1000, Hotspot, "", "254700000000", None, "key",
            Fingerprint(1, "254700000000", ""), 1, 1, 0, 900, 0, None, None, None, None, None, Asking(false))

  const PAID: Session :=
    ASKED.(status := Provisioned, receipt := Some("r1"), updatedAt := 10, accessName := Some(Derived(0)),
           accessPassword := Some("secret"), credentialsUntil := Some(1810))

  const LINE_OF_GUEST: Entry := Entry(GUEST, "secret", "day", true, Some(60))

  const SALE: Payment := Payment(0, Some("r1"), 1000, GUEST, 1)

  function OneSpot(s: Session, customers: map<Key, Customer>, device: seq<Entry>, ledger: seq<Payment>): World {
    World(map[1 := RouterRow(true, Kopokopo, false)], map[1 := SPOT], [s], customers, device, ledger)
  }

  /** The one account, on the router and in the database. */
  function Guest(s: Session, expires: Option<int>): World {
    OneSpot(s, map[GUEST := Customer("secret", true, expires, 1)], [LINE_OF_GUEST], [SALE])
  }

  /** The callback comes before the access task, the request ends, time passes, and the job runs. */
  const LOSING: seq<Step> := [
    StepPutRouter(1, RouterRow(true, Kopokopo, false)),
    StepPutPackage(1, SPOT),
    StepCreatePayment(BUYING, 0, 0),
    StepComplete(0, Some("r1"), "secret", true, 10),
    StepPrepare(0, "", true, 11),
    StepFinishInitiation(0, Some("req"), 12),
    StepExpireSessions(900),
    StepCleanup(0, true, 901)]

  lemma SpotIsOpened()
    ensures
      Until(SETTINGS, EMPTY, LOSING, 2)
      == EMPTY.(routers := map[1 := RouterRow(true, Kopokopo, false)], packages := map[1 := SPOT])
  {
    hide Until;
    UntilBegins(SETTINGS, EMPTY, LOSING);
    UntilNext(SETTINGS, EMPTY, LOSING, 0);
    UntilNext(SETTINGS, EMPTY, LOSING, 1);
  }

  lemma GuestAsks()
    ensures Until(SETTINGS, EMPTY, LOSING, 3) == OneSpot(ASKED, map[], [], [])
  {
    hide Until;
    SpotIsOpened();
    UntilNext(SETTINGS, EMPTY, LOSING, 2);
  }

  lemma GuestPays()
    ensures Until(SETTINGS, EMPTY, LOSING, 4) == Guest(PAID, Some(3610))
  {
    hide Until, HasInvoice;
    GuestAsks();
    UntilNext(SETTINGS, EMPTY, LOSING, 3);
    NoInvoice(0);
  }

  lemma TaskWipes()
    ensures Until(SETTINGS, EMPTY, LOSING, 5) == Guest(PAID.(task := Asking(true), updatedAt := 11), None)
  {
    hide Until;
    GuestPays();
    UntilNext(SETTINGS, EMPTY, LOSING, 4);
    assert [LINE_OF_GUEST][0 := LINE_OF_GUEST] == [LINE_OF_GUEST];
  }

  lemma RequestEnds()
    ensures
      Until(SETTINGS, EMPTY, LOSING, 6)
      == Guest(PAID.(task := Done, updatedAt := 12, requestId := Some("req"), status := Pending), None)
  {
    hide Until;
    TaskWipes();
    UntilNext(SETTINGS, EMPTY, LOSING, 5);
  }

  lemma SessionExpires()
    ensures
      Until(SETTINGS, EMPTY, LOSING, 7)
      == Guest(PAID.(task := Done, updatedAt := 900, requestId := Some("req"), status := Failed), None)
  {
    hide Until;
    RequestEnds();
    UntilNext(SETTINGS, EMPTY, LOSING, 6);
  }

  /** A run from the empty system: a guest pays, the ledger says so, and the guest ends without an
    account and without a user on the router. */
  lemma PaidAccountIsRemoved()
    ensures
      var paid, lost := Until(SETTINGS, EMPTY, LOSING, 4), Run(SETTINGS, EMPTY, LOSING);
      && Paid(paid, 0, "secret", 3610) && paid.ledger == lost.ledger == [SALE]
      && lost.customers == map[] && lost.device == [] && |lost.sessions| == 1 && lost.sessions[0].status.Failed?
  {
    hide Until;
    GuestPays();
    SessionExpires();
    UntilBegins(SETTINGS, EMPTY, LOSING);
    UntilNext(SETTINGS, EMPTY, LOSING, 7);
    assert Without([LINE_OF_GUEST], GUEST) == [];
  }
}
